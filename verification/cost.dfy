/** What compaction costs over a session, whatever its store did (compact.go, run.go, history.go). */
module Cost {
  import opened Text
  import opened Messages
  import opened Compact
  import opened Store
  import opened History
  import opened Run
  import opened Trace
  import opened Replays
  import opened Session
  import opened Checkpoints
  import opened Conversation
  import Profiles

  // ---- rows a marker keeps without owing them ----

  function KeptMask(all: seq<RunStep>, x: nat, m: int): (mask: seq<bool>)
    ensures |mask| == |all| && forall i | 0 <= i < |all| :: mask[i] <==> x <= i && all[i].index >= m
  {
    seq(|all|, i requires 0 <= i < |all| => x <= i && all[i].index >= m)
  }

  function SurplusMask(rows: seq<RunStep>, all: seq<RunStep>, window: int, r: nat, m: int): (mask: seq<bool>)
    requires window > 0
    ensures |mask| == |all|
    ensures forall i | 0 <= i < |all| ::
              mask[i] <==> Dropped(|all|, window) <= i && all[i].index >= m && !Owed(rows, window, r, i)
  {
    seq(|all|, i requires 0 <= i < |all| =>
          Dropped(|all|, window) <= i && all[i].index >= m && !Owed(rows, window, r, i))
  }

  /** How many rows the checkpoint c with marker m makes a Run replay beyond those it owes: none once it
      has left the window. */
  function Surplus(rows: seq<RunStep>, all: seq<RunStep>, c: nat, m: int, window: int, r: nat): nat
    requires window > 0
  {
    if Dropped(|all|, window) <= c then |Picked(all, SurplusMask(rows, all, window, r, m))| else 0
  }

  lemma {:induction false} PickedUnion(rows: seq<RunStep>, a: seq<bool>, b: seq<bool>, c: seq<bool>)
    requires |a| == |b| == |c| == |rows|
    requires forall i | 0 <= i < |rows| :: a[i] ==> b[i] || c[i]
    ensures |Picked(rows, a)| <= |Picked(rows, b)| + |Picked(rows, c)|
  {
    hide Plays;
    if rows != [] { PickedUnion(rows[1..], a[1..], b[1..], c[1..]); }
  }

  lemma NonePickedIff(rows: seq<RunStep>, mask: seq<bool>)
    requires |mask| == |rows|
    ensures Picked(rows, mask) == [] <==> forall i | 0 <= i < |rows| :: Plays(rows[i]) ==> !mask[i]
  {
    hide Plays, Picked;
    if i :| 0 <= i < |rows| && Plays(rows[i]) && mask[i] {
      SomethingPicked(rows, mask, i);
    } else {
      NothingPicked(rows, mask);
    }
  }

  /** There is no surplus exactly when no loaded row outside those owed has an index at or past the
      marker. */
  lemma NoSurplusIff(rows: seq<RunStep>, all: seq<RunStep>, c: nat, m: int, window: int, r: nat)
    requires window > 0
    ensures var x := Dropped(|all|, window);
            Surplus(rows, all, c, m, window, r) == 0 <==>
            x > c || forall i | x <= i < |all| :: Plays(all[i]) && all[i].index >= m ==> Owed(rows, window, r, i)
  {
    hide Plays, Picked, Owed;
    NonePickedIff(all, SurplusMask(rows, all, window, r, m));
  }

  lemma KeptPicked(all: seq<RunStep>, x: nat, m: int)
    requires x <= |all|
    ensures Picked(all, KeptMask(all, x, m)) == Replay(all[x..], Some(m))
  {
    var none := seq(x, i => false);
    assert forall i | 0 <= i < x :: !none[i];
    hide *;
    KeptMaskIs(all, x, m, none);
    PickedBehind(all, KeptMask(all, x, m), x, none, FromMask(all[x..], Some(m)));
    ReplayIsPicked(all[x..], Some(m));
  }

  lemma PickedBehind(all: seq<RunStep>, mask: seq<bool>, x: nat, none: seq<bool>, rest: seq<bool>)
    requires x == |none| <= |all| == |mask| && |rest| == |all| - x && mask == none + rest
    requires forall i | 0 <= i < x :: !none[i]
    ensures Picked(all, mask) == Picked(all[x..], rest)
  {
    hide *;
    var front, back := all[..x], all[x..];
    NothingPicked(front, none);
    PickedConcat(front, none, back, rest);
    assert front + back == all;
    assert [] + Picked(back, rest) == Picked(back, rest);
  }

  lemma KeptMaskIs(all: seq<RunStep>, x: nat, m: int, none: seq<bool>)
    requires x == |none| <= |all| && forall i | 0 <= i < x :: !none[i]
    ensures KeptMask(all, x, m) == none + FromMask(all[x..], Some(m))
  {}

  /** A history rehydrated after a checkpoint is no longer than the summary, what was retained, what is
      new and the surplus. */
  lemma HistoryBound(rows: seq<RunStep>, all: seq<RunStep>, c: nat, window: int, r: nat)
    requires window > 0 && |rows| <= c < |all| && all[..|rows|] == rows
    requires Usable(all[c]) && NoUsable(all[c + 1..]) && 0 < r <= |Rehydrated(rows, window)|
    ensures |Rehydrated(all, window)| <=
            1 + |Rehydrated(rows, window)| - r + |Replay(all[|rows|..], None)|
                + Surplus(rows, all, c, MarkerOf(all[c]), window, r)
  {
    var x := Dropped(|all|, window);
    assert Surplus(rows, all, c, MarkerOf(all[c]), window, r) ==
           if x <= c then |Picked(all, SurplusMask(rows, all, window, r, MarkerOf(all[c])))| else 0;
    hide *;
    LoadedFrom(all, window);
    UsableMarker(all[c]);
    if x <= c {
      WithinWindow(all, c, x);
      var m := MarkerOf(all[c]);
      KeptPicked(all, x, m);
      OwedRows(rows, all, window, r);
      KeptSplits(rows, all, window, r, m);
      PickedUnion(all, KeptMask(all, x, m), OwedMask(rows, |all|, window, r), SurplusMask(rows, all, window, r, m));
    } else {
      LaterOnly(all, c, x);
      LaterShorter(all, |rows|, x);
    }
  }

  lemma KeptSplits(rows: seq<RunStep>, all: seq<RunStep>, window: int, r: nat, m: int)
    requires window > 0 && |rows| <= |all|
    ensures var kept := KeptMask(all, Dropped(|all|, window), m);
            forall i | 0 <= i < |all| :: kept[i] ==>
              OwedMask(rows, |all|, window, r)[i] || SurplusMask(rows, all, window, r, m)[i]
  {
    hide Owed, Dropped;
  }

  lemma LaterOnly(all: seq<RunStep>, c: nat, x: nat)
    requires c < x <= |all| && NoUsable(all[c + 1..])
    ensures Rebuilt(all[x..]) == Replay(all[x..], None)
  {
    assert all[c + 1..][x - c - 1..] == all[x..];
    assert NoUsable(all[x..]) by { hide Usable; }
    hide *;
    NoCheckpointIff(all[x..]);
    UnmarkedRebuilt(all[x..]);
  }

  lemma LaterShorter(all: seq<RunStep>, y: nat, x: nat)
    requires y <= x <= |all|
    ensures |Replay(all[x..], None)| <= |Replay(all[y..], None)|
  {
    hide Replay;
    SplitReplay(all, y, x);
  }

  // ---- between two compactions ----

  /** A Run persists a usable checkpoint. */
  predicate Compacts(cfg: Config, sid: string, rows: seq<RunStep>, call: Call) {
    !NoUsable(Added(cfg, sid, rows, call))
  }

  /** Where its checkpoint stands among the rows it added. */
  function UsableAt(added: seq<RunStep>): nat { if added != [] && Usable(added[0]) then 0 else 1 }

  lemma CompactsAt(cfg: Config, sid: string, rows: seq<RunStep>, call: Call)
    requires cfg.historyWindow > 0 && Compacts(cfg, sid, rows, call)
    ensures var added := Added(cfg, sid, rows, call); UsableAt(added) < |added| && Usable(added[UsableAt(added)])
  {
    hide Usable, Added;
    var added := Added(cfg, sid, rows, call);
    var k :| 0 <= k < |added| && Usable(added[k]);
    AddedUsable(cfg, sid, rows, call, k);
  }

  /** A compaction that persists a checkpoint folds a history over the trigger, and all but keep + 1
      messages of it. */
  lemma CompactsOver(cfg: Config, sid: string, rows: seq<RunStep>, call: Call, trigger: int, keep: int)
    requires cfg.historyWindow > 0 && 0 <= keep < trigger && Summarizes(call.env, trigger, keep)
    requires Compacts(cfg, sid, rows, call)
    ensures var es := Rehydrated(rows, cfg.historyWindow);
            && |es| > trigger && |es| - FoldedCount(cfg, rows, call) <= keep + 1 && 0 < FoldedCount(cfg, rows, call)
  {
    var es := Rehydrated(rows, cfg.historyWindow);
    hide *;
    CompactsAt(cfg, sid, rows, call);
    AddedUsable(cfg, sid, rows, call, UsableAt(Added(cfg, sid, rows, call)));
    var r := call.env.compactor.value(Msgs(es));
    SummarizesAt(call.env, trigger, keep, Msgs(es));
    HandedOn(trigger, keep, es, r);
    FoldedSize(trigger, keep, es, r);
    FoldedCountValue(cfg, rows, call);
  }

  lemma SummarizesAt(env: Env, trigger: int, keep: int, h: seq<Message>)
    requires Summarizes(env, trigger, keep) && env.compactor.Some?
    ensures Outcome(trigger, keep, h, env.compactor.value(h))
  {
    hide Outcome;
  }

  lemma FoldedSize(trigger: int, keep: int, es: seq<Entry>, r: CompactResult)
    requires Folded(trigger, keep, es, r)
    ensures |es| > trigger && 0 < r.retainedFrom <= |es| && |es| - r.retainedFrom <= keep + 1
  {}

  lemma FoldedCountValue(cfg: Config, rows: seq<RunStep>, call: Call)
    requires var es := Rehydrated(rows, cfg.historyWindow);
             call.env.compactor.Some? && 0 < call.env.compactor.value(Msgs(es)).retainedFrom <= |es|
    ensures FoldedCount(cfg, rows, call) ==
            call.env.compactor.value(Msgs(Rehydrated(rows, cfg.historyWindow))).retainedFrom
  {
    hide Rehydrated, Msgs;
  }

  /** The marker of that checkpoint. */
  function MarkerWritten(added: seq<RunStep>): int {
    if UsableAt(added) < |added| then MarkerOf(added[UsableAt(added)]) else 0
  }

  /** The surplus, at `all`, of the checkpoint this Run wrote. */
  function SurplusSince(cfg: Config, sid: string, rows: seq<RunStep>, call: Call, all: seq<RunStep>): nat
    requires cfg.historyWindow > 0
  {
    var added := Added(cfg, sid, rows, call);
    Surplus(rows, all, |rows| + UsableAt(added), MarkerWritten(added), cfg.historyWindow, FoldedCount(cfg, rows, call))
  }

  /** Over any Runs and whatever the store did: when a history is over the trigger again, the replayable
      steps added since the last checkpoint and the surplus of its marker make up trigger - keep - 1. */
  lemma CompactionsApart(cfg: Config, sid: string, calls: seq<Call>, call: Call, more: seq<Call>, trigger: int,
                         keep: int)
    requires cfg.historyWindow > 0 && 0 <= keep < trigger && Summarizes(call.env, trigger, keep)
    requires Compacts(cfg, sid, After(cfg, sid, calls), call)
    requires var all := After(cfg, sid, calls + [call] + more);
             && |After(cfg, sid, calls + [call])| <= |all| && NoUsable(all[|After(cfg, sid, calls + [call])|..])
             && |Rehydrated(all, cfg.historyWindow)| > trigger
    ensures var rows := After(cfg, sid, calls);
            var all := After(cfg, sid, calls + [call] + more);
            && |rows| <= |all|
            && |Replay(all[|rows|..], None)| + SurplusSince(cfg, sid, rows, call, all) >= trigger - keep - 1
  {
    var rows := After(cfg, sid, calls);
    var all := After(cfg, sid, calls + [call] + more);
    AfterOne(cfg, sid, calls, call);
    AfterMore(cfg, sid, calls + [call], more);
    hide *;
    ApartRows(cfg, sid, rows, call, all, trigger, keep);
  }

  lemma ApartRows(cfg: Config, sid: string, rows: seq<RunStep>, call: Call, all: seq<RunStep>, trigger: int, keep: int)
    requires cfg.historyWindow > 0 && 0 <= keep < trigger && Summarizes(call.env, trigger, keep)
    requires Compacts(cfg, sid, rows, call) && rows + Added(cfg, sid, rows, call) <= all
    requires NoUsable(all[|rows + Added(cfg, sid, rows, call)|..]) && |Rehydrated(all, cfg.historyWindow)| > trigger
    ensures |rows| <= |all|
    ensures |Replay(all[|rows|..], None)| + SurplusSince(cfg, sid, rows, call, all) >= trigger - keep - 1
  {
    hide *;
    CompactsOver(cfg, sid, rows, call, trigger, keep);
    HistorySince(cfg, sid, rows, call, all);
  }

  lemma HistorySince(cfg: Config, sid: string, rows: seq<RunStep>, call: Call, all: seq<RunStep>)
    requires cfg.historyWindow > 0 && Compacts(cfg, sid, rows, call) && rows + Added(cfg, sid, rows, call) <= all
    requires NoUsable(all[|rows + Added(cfg, sid, rows, call)|..]) && 0 < FoldedCount(cfg, rows, call)
    ensures |rows| <= |all|
    ensures |Rehydrated(all, cfg.historyWindow)| <=
            1 + |Rehydrated(rows, cfg.historyWindow)| - FoldedCount(cfg, rows, call)
            + |Replay(all[|rows|..], None)| + SurplusSince(cfg, sid, rows, call, all)
  {
    hide *;
    var added := Added(cfg, sid, rows, call);
    var k := UsableAt(added);
    CompactsAt(cfg, sid, rows, call);
    AddedUsable(cfg, sid, rows, call, k);
    TailUnusable(rows, added, all, k);
    assert all[|rows| + k] == added[k];
    SurplusSinceIs(cfg, sid, rows, call, all);
    HistoryBound(rows, all, |rows| + k, cfg.historyWindow, FoldedCount(cfg, rows, call));
  }

  lemma SurplusSinceIs(cfg: Config, sid: string, rows: seq<RunStep>, call: Call, all: seq<RunStep>)
    requires cfg.historyWindow > 0
    ensures var added := Added(cfg, sid, rows, call);
            var k := UsableAt(added);
            k < |added| ==>
              SurplusSince(cfg, sid, rows, call, all) ==
              Surplus(rows, all, |rows| + k, MarkerOf(added[k]), cfg.historyWindow, FoldedCount(cfg, rows, call))
  {
    hide Added, Surplus, FoldedCount, UsableAt;
  }

  // ---- over a whole session ----

  /** The last of these calls that persisted a usable checkpoint. */
  function LastCompaction(cfg: Config, sid: string, calls: seq<Call>): (n: Option<nat>)
    ensures n.Some? ==> n.value < |calls|
  {
    if calls == [] then None
    else
      var front := calls[..|calls| - 1];
      if Compacts(cfg, sid, After(cfg, sid, front), calls[|calls| - 1]) then Some(|front|)
      else LastCompaction(cfg, sid, front)
  }

  /** The surpluses that the session's compactions found, added up. */
  function TotalSurplus(cfg: Config, sid: string, calls: seq<Call>): nat
    requires cfg.historyWindow > 0
  {
    if calls == [] then 0
    else
      var front := calls[..|calls| - 1];
      TotalSurplus(cfg, sid, front)
      + if Compacts(cfg, sid, After(cfg, sid, front), calls[|calls| - 1]) then SurplusAt(cfg, sid, front) else 0
  }

  /** The surplus of the last checkpoint, as these calls leave the session. */
  function SurplusAt(cfg: Config, sid: string, calls: seq<Call>): nat
    requires cfg.historyWindow > 0
  {
    match LastCompaction(cfg, sid, calls)
    case None => 0
    case Some(n) => SurplusSince(cfg, sid, After(cfg, sid, calls[..n]), calls[n], After(cfg, sid, calls))
  }

  lemma {:induction false} LastCompactionMeans(cfg: Config, sid: string, calls: seq<Call>)
    ensures var all := After(cfg, sid, calls);
            match LastCompaction(cfg, sid, calls)
            case None => NoUsable(all)
            case Some(n) =>
              && Compacts(cfg, sid, After(cfg, sid, calls[..n]), calls[n])
              && |After(cfg, sid, calls[..n + 1])| <= |all| && NoUsable(all[|After(cfg, sid, calls[..n + 1])|..])
    decreases |calls|
  {
    hide Added, Usable;
    if calls != [] {
      var front, call := calls[..|calls| - 1], calls[|calls| - 1];
      var rows := After(cfg, sid, front);
      var added := Added(cfg, sid, rows, call);
      var all := After(cfg, sid, calls);
      assert all == rows + added;
      assert calls[..|front|] == front && calls[..|calls|] == calls;
      if Compacts(cfg, sid, rows, call) {
        assert all[|all|..] == [];
      } else {
        LastCompactionMeans(cfg, sid, front);
        if LastCompaction(cfg, sid, front).Some? {
          var n := LastCompaction(cfg, sid, front).value;
          assert calls[..n] == front[..n] && calls[..n + 1] == front[..n + 1] && calls[n] == front[n];
          var y := |After(cfg, sid, calls[..n + 1])|;
          assert all[y..] == rows[y..] + added;
        }
      }
    }
  }

  /** d replayable steps are accounted for, per checkpoint, before the last compaction. */
  ghost predicate Accounted(cfg: Config, sid: string, calls: seq<Call>, d: nat)
    requires cfg.historyWindow > 0
  {
    match LastCompaction(cfg, sid, calls)
    case None => Summaries(After(cfg, sid, calls)) == 0
    case Some(n) =>
      Summaries(After(cfg, sid, calls)) * d
      <= |Replay(After(cfg, sid, calls[..n]), None)| + TotalSurplus(cfg, sid, calls)
  }

  lemma {:induction false} AllAccounted(cfg: Config, sid: string, calls: seq<Call>, trigger: int, keep: int)
    requires cfg.historyWindow > 0 && 0 <= keep < trigger && AllSummarize(calls, trigger, keep)
    ensures Accounted(cfg, sid, calls, trigger - keep - 1)
    decreases |calls|
  {
    hide *;
    if calls == [] {
      NoneYet(cfg, sid, trigger - keep - 1);
    } else {
      var front, call := calls[..|calls| - 1], calls[|calls| - 1];
      AllButLast(calls, trigger, keep);
      AllAccounted(cfg, sid, front, trigger, keep);
      if Compacts(cfg, sid, After(cfg, sid, front), call) {
        CompactionAccounted(cfg, sid, front, call, trigger, keep);
      } else {
        QuietAccounted(cfg, sid, front, call, trigger - keep - 1);
      }
    }
  }

  lemma AllButLast(calls: seq<Call>, trigger: int, keep: int)
    requires AllSummarize(calls, trigger, keep) && calls != []
    ensures var n := |calls| - 1;
            && AllSummarize(calls[..n], trigger, keep) && Summarizes(calls[n].env, trigger, keep)
            && calls == calls[..n] + [calls[n]]
  {
    hide Summarizes;
  }

  lemma NoneYet(cfg: Config, sid: string, d: nat)
    requires cfg.historyWindow > 0
    ensures Accounted(cfg, sid, [], d)
  {}

  lemma LastOfCall(cfg: Config, sid: string, front: seq<Call>, call: Call)
    requires cfg.historyWindow > 0
    ensures var rows := After(cfg, sid, front);
            var compacts := Compacts(cfg, sid, rows, call);
            && LastCompaction(cfg, sid, front + [call]) ==
                (if compacts then Some(|front|) else LastCompaction(cfg, sid, front))
            && TotalSurplus(cfg, sid, front + [call]) ==
               TotalSurplus(cfg, sid, front) + (if compacts then SurplusAt(cfg, sid, front) else 0)
  {
    assert (front + [call])[..|front|] == front;
    hide Compacts, SurplusAt, After;
  }

  lemma AddedCount(cfg: Config, sid: string, rows: seq<RunStep>, call: Call)
    requires cfg.historyWindow > 0
    ensures Summaries(Added(cfg, sid, rows, call)) == if Compacts(cfg, sid, rows, call) then 1 else 0
  {
    var added := Added(cfg, sid, rows, call);
    hide Usable, Added;
    if Compacts(cfg, sid, rows, call) {
      CompactsAt(cfg, sid, rows, call);
      AddedUsable(cfg, sid, rows, call, UsableAt(added));
      OneUsable(added, UsableAt(added));
    } else {
      NoSummaries(added);
    }
  }

  lemma OneUsable(added: seq<RunStep>, k: nat)
    requires k < |added| && k <= 1 && Usable(added[k]) && (k == 1 ==> !Usable(added[0])) && NoUsable(added[k + 1..])
    ensures Summaries(added) == 1
  {
    NoSummaries(added[k + 1..]);
    if k == 1 { assert added[1..][1..] == added[2..]; }
    hide Usable;
  }

  lemma QuietAccounted(cfg: Config, sid: string, front: seq<Call>, call: Call, d: nat)
    requires cfg.historyWindow > 0 && Accounted(cfg, sid, front, d)
    requires !Compacts(cfg, sid, After(cfg, sid, front), call)
    ensures Accounted(cfg, sid, front + [call], d)
  {
    hide *;
    var rows := After(cfg, sid, front);
    LastOfCall(cfg, sid, front, call);
    AfterOne(cfg, sid, front, call);
    AddedCount(cfg, sid, rows, call);
    SummariesConcat(rows, Added(cfg, sid, rows, call));
    AccountedMeans(cfg, sid, front, d);
    AccountedStill(cfg, sid, front, call, d);
  }

  lemma AccountedStill(cfg: Config, sid: string, front: seq<Call>, call: Call, d: nat)
    requires cfg.historyWindow > 0 && Accounted(cfg, sid, front, d)
    requires LastCompaction(cfg, sid, front + [call]) == LastCompaction(cfg, sid, front)
    requires TotalSurplus(cfg, sid, front + [call]) == TotalSurplus(cfg, sid, front)
    requires Summaries(After(cfg, sid, front + [call])) == Summaries(After(cfg, sid, front))
    ensures Accounted(cfg, sid, front + [call], d)
  {
    hide After, Summaries, Replay, TotalSurplus, LastCompaction;
    var n := LastCompaction(cfg, sid, front);
    if n.Some? { assert (front + [call])[..n.value] == front[..n.value]; }
  }

  lemma CompactionAccounted(cfg: Config, sid: string, front: seq<Call>, call: Call, trigger: int, keep: int)
    requires cfg.historyWindow > 0 && 0 <= keep < trigger && Summarizes(call.env, trigger, keep)
    requires AllSummarize(front, trigger, keep) && Accounted(cfg, sid, front, trigger - keep - 1)
    requires Compacts(cfg, sid, After(cfg, sid, front), call)
    ensures Accounted(cfg, sid, front + [call], trigger - keep - 1)
  {
    hide *;
    var rows := After(cfg, sid, front);
    LastOfCall(cfg, sid, front, call);
    AfterOne(cfg, sid, front, call);
    AddedCount(cfg, sid, rows, call);
    SummariesConcat(rows, Added(cfg, sid, rows, call));
    CompactsOver(cfg, sid, rows, call, trigger, keep);
    AccountedMeans(cfg, sid, front, trigger - keep - 1);
    OneMore(Summaries(rows), trigger - keep - 1);
    if LastCompaction(cfg, sid, front) == None {
      FirstCompaction(cfg, sid, front);
      FirstSurplus(cfg, sid, front);
    } else {
      NextCompaction(cfg, sid, front, LastCompaction(cfg, sid, front).value, trigger, keep);
    }
    AccountedHere(cfg, sid, front, call, trigger - keep - 1);
  }

  lemma AccountedMeans(cfg: Config, sid: string, calls: seq<Call>, d: nat)
    requires cfg.historyWindow > 0 && Accounted(cfg, sid, calls, d)
    ensures var n := LastCompaction(cfg, sid, calls);
            && (n == None ==> Summaries(After(cfg, sid, calls)) == 0 && 0 * d == 0)
            && (n.Some? ==>
                  && n.value < |calls|
                  && Summaries(After(cfg, sid, calls)) * d <=
                     |Replay(After(cfg, sid, calls[..n.value]), None)| + TotalSurplus(cfg, sid, calls))
  {
    hide After, Summaries, Replay, TotalSurplus, LastCompaction;
  }

  lemma AccountedHere(cfg: Config, sid: string, front: seq<Call>, call: Call, d: nat)
    requires cfg.historyWindow > 0 && LastCompaction(cfg, sid, front + [call]) == Some(|front|)
    requires Summaries(After(cfg, sid, front + [call])) * d <=
             |Replay(After(cfg, sid, front), None)| + TotalSurplus(cfg, sid, front + [call])
    ensures Accounted(cfg, sid, front + [call], d)
  {
    hide After, Summaries, Replay, TotalSurplus, LastCompaction;
    assert (front + [call])[..|front|] == front;
  }

  lemma FirstSurplus(cfg: Config, sid: string, front: seq<Call>)
    requires cfg.historyWindow > 0 && LastCompaction(cfg, sid, front) == None
    ensures SurplusAt(cfg, sid, front) == 0
  {
    hide LastCompaction;
  }

  lemma FirstCompaction(cfg: Config, sid: string, front: seq<Call>)
    requires cfg.historyWindow > 0 && LastCompaction(cfg, sid, front) == None
    ensures var rows := After(cfg, sid, front); |Rehydrated(rows, cfg.historyWindow)| <= |Replay(rows, None)|
  {
    var rows := After(cfg, sid, front);
    LastCompactionMeans(cfg, sid, front);
    var x := Dropped(|rows|, cfg.historyWindow);
    assert rows[0..] == rows;
    assert NoUsable(rows[x..]) by { hide Usable; }
    hide *;
    LoadedFrom(rows, cfg.historyWindow);
    NoCheckpointIff(rows[x..]);
    UnmarkedRebuilt(rows[x..]);
    LaterShorter(rows, 0, x);
  }

  /** The steps added since the last compaction, with the surplus, pay for the next one. */
  lemma NextCompaction(cfg: Config, sid: string, front: seq<Call>, n: nat, trigger: int, keep: int)
    requires cfg.historyWindow > 0 && 0 <= keep < trigger && AllSummarize(front, trigger, keep)
    requires LastCompaction(cfg, sid, front) == Some(n)
    requires |Rehydrated(After(cfg, sid, front), cfg.historyWindow)| > trigger
    ensures n < |front|
    ensures |Replay(After(cfg, sid, front), None)| + SurplusAt(cfg, sid, front) >=
            |Replay(After(cfg, sid, front[..n]), None)| + (trigger - keep - 1)
  {
    var before, call := front[..n], front[n];
    NextSurplus(cfg, sid, front, n);
    SummarizesThen(front, n, trigger, keep);
    LastCompactionMeans(cfg, sid, front);
    hide *;
    SplitCalls(front, n);
    CompactionsApart(cfg, sid, before, call, front[n + 1..], trigger, keep);
    AfterMore(cfg, sid, before, [call] + front[n + 1..]);
    PrefixReplay(After(cfg, sid, before), After(cfg, sid, front));
  }

  lemma NextSurplus(cfg: Config, sid: string, front: seq<Call>, n: nat)
    requires cfg.historyWindow > 0 && LastCompaction(cfg, sid, front) == Some(n)
    ensures n < |front|
    ensures SurplusAt(cfg, sid, front) ==
            SurplusSince(cfg, sid, After(cfg, sid, front[..n]), front[n], After(cfg, sid, front))
  {
    hide LastCompaction, After, SurplusSince;
  }

  lemma SummarizesThen(calls: seq<Call>, n: nat, trigger: int, keep: int)
    requires n < |calls| && AllSummarize(calls, trigger, keep)
    ensures Summarizes(calls[n].env, trigger, keep)
  {
    hide Summarizes;
  }

  lemma SplitCalls<T>(s: seq<T>, n: nat)
    requires n < |s|
    ensures s[..n] + [s[n]] + s[n + 1..] == s && s[..n + 1] == s[..n] + [s[n]]
    ensures s[..n] + ([s[n]] + s[n + 1..]) == s
  {}

  lemma PrefixReplay(rows: seq<RunStep>, all: seq<RunStep>)
    requires rows <= all
    ensures |Replay(all, None)| == |Replay(rows, None)| + |Replay(all[|rows|..], None)|
  {
    hide Replay;
    ReplayAppend(rows, all[|rows|..], None);
    assert all == rows + all[|rows|..];
  }

  /** Over any calls and whatever the store did: trigger - keep - 1 replayable steps for every usable
      checkpoint, but for the surpluses the compactions found. */
  lemma CompactionAmortised(cfg: Config, sid: string, calls: seq<Call>, trigger: int, keep: int)
    requires cfg.historyWindow > 0 && 0 <= keep < trigger && AllSummarize(calls, trigger, keep)
    ensures Summaries(After(cfg, sid, calls)) * (trigger - keep - 1)
            <= |Replay(After(cfg, sid, calls), None)| + TotalSurplus(cfg, sid, calls)
  {
    hide *;
    var d := trigger - keep - 1;
    AllAccounted(cfg, sid, calls, trigger, keep);
    AccountedMeans(cfg, sid, calls, d);
    var n := LastCompaction(cfg, sid, calls);
    if n.Some? {
      SplitCalls(calls, n.value);
      AfterMore(cfg, sid, calls[..n.value], [calls[n.value]] + calls[n.value + 1..]);
      PrefixReplay(After(cfg, sid, calls[..n.value]), After(cfg, sid, calls));
    }
  }

  // ---- sessions without surplus ----

  /** Where indices are positions, no checkpoint resumes later than its own row, whatever the store did. */
  lemma {:induction false} WellMarkedSession(cfg: Config, sid: string, calls: seq<Call>)
    requires cfg.historyWindow > 0 && Faithful(After(cfg, sid, calls)) && |After(cfg, sid, calls)| < TWO_31
    ensures WellMarked(After(cfg, sid, calls))
    decreases |calls|
  {
    hide Added, Faithful, WellMarked;
    if calls == [] {
      NothingMarked();
    } else {
      var front, call := calls[..|calls| - 1], calls[|calls| - 1];
      var rows := After(cfg, sid, front);
      var all := rows + Added(cfg, sid, rows, call);
      assert After(cfg, sid, calls) == all;
      assert all[..|rows|] == rows;
      hide After;
      FaithfulPrefix(all, |rows|);
      WellMarkedSession(cfg, sid, front);
      WellMarkedAdded(cfg, sid, rows, call);
    }
  }

  lemma WellMarkedAdded(cfg: Config, sid: string, rows: seq<RunStep>, call: Call)
    requires cfg.historyWindow > 0 && Faithful(rows) && WellMarked(rows) && |rows| < TWO_31
    ensures WellMarked(rows + Added(cfg, sid, rows, call))
  {
    var added := Added(cfg, sid, rows, call);
    hide Added, Faithful, Rehydrated, Usable;
    forall k | 0 <= k < |added| && Usable(added[k]) ensures MarkerOf(added[k]) <= |rows| {
      hide *;
      AddedUsable(cfg, sid, rows, call, k);
      UsableMarker(added[k]);
      MarkerBelow(rows, cfg.historyWindow,
                  call.env.compactor.value(Msgs(Rehydrated(rows, cfg.historyWindow))).retainedFrom);
    }
    AllBelow(rows, added);
  }

  lemma AllBelow(rows: seq<RunStep>, added: seq<RunStep>)
    requires WellMarked(rows) && forall k | 0 <= k < |added| :: Usable(added[k]) ==> MarkerOf(added[k]) <= |rows|
    ensures WellMarked(rows + added)
  {
    hide IsBlank;
  }

  /** Where indices are positions a marker keeps of the history it was computed from what it owes. */
  lemma MarkerExact(rows: seq<RunStep>, window: int, r: nat, m: int)
    requires window > 0 && Faithful(rows) && WellMarked(rows) && |rows| < TWO_31
    requires 0 < r <= |Rehydrated(rows, window)| && RetainFromStep(r, StepsOf(Rehydrated(rows, window))) == Some(m)
    ensures forall i | 0 <= i < |rows| :: Plays(rows[i]) ==> (rows[i].index >= m <==> Owed(rows, window, r, i))
  {
    hide Plays, Picked, Replay, Owed, Rehydrated, Faithful, WellMarked, StepsOf, RetainFromStep, Dropped, Rebuilt;
    LoadedFrom(rows, window);
    RetainNames(rows, Dropped(|rows|, window), r);
    assert rows[0..] == rows && rows[..|rows|] == rows && rows[|rows|..] == [];
    FilterSuffix(rows, 0, m);
    OwedRows(rows, rows, window, r);
    ReplayNothing(None);
    var es := Rehydrated(rows, window);
    assert es[r..] + [] == es[r..];
    MaskIff(rows, m, OwedMask(rows, |rows|, window, r));
  }

  lemma FaithfulSurplus(cfg: Config, sid: string, rows: seq<RunStep>, call: Call, all: seq<RunStep>)
    requires cfg.historyWindow > 0 && Faithful(all) && |all| < TWO_31 && WellMarked(rows)
    requires Compacts(cfg, sid, rows, call) && rows <= all
    ensures SurplusSince(cfg, sid, rows, call, all) == 0
  {
    var added := Added(cfg, sid, rows, call);
    var k := UsableAt(added);
    var r, m := FoldedCount(cfg, rows, call), MarkerOf(added[k]);
    hide *;
    assert all[..|rows|] == rows;
    CompactsAt(cfg, sid, rows, call);
    AddedUsable(cfg, sid, rows, call, k);
    FoldedCountIs(cfg, rows, call);
    UsableMarker(added[k]);
    FaithfulPrefix(all, |rows|);
    MarkerExact(rows, cfg.historyWindow, r, m);
    KeptOwed(rows, all, cfg.historyWindow, r, m);
    SurplusSinceIs(cfg, sid, rows, call, all);
    NoSurplusIff(rows, all, |rows| + k, m, cfg.historyWindow, r);
  }

  lemma KeptOwed(rows: seq<RunStep>, all: seq<RunStep>, window: int, r: nat, m: int)
    requires window > 0 && rows <= all
    requires forall i | 0 <= i < |rows| :: Plays(rows[i]) ==> (rows[i].index >= m <==> Owed(rows, window, r, i))
    ensures forall i | Dropped(|all|, window) <= i < |all| ::
              Plays(all[i]) && all[i].index >= m ==> Owed(rows, window, r, i)
  {
    LaterOwed(rows, window, r);
    hide Plays, Owed, Dropped;
    assert forall i | 0 <= i < |rows| :: all[i] == rows[i];
  }

  lemma {:induction false} FaithfulTotal(cfg: Config, sid: string, calls: seq<Call>)
    requires cfg.historyWindow > 0 && Faithful(After(cfg, sid, calls)) && |After(cfg, sid, calls)| < TWO_31
    ensures TotalSurplus(cfg, sid, calls) == 0
    decreases |calls|
  {
    if calls == [] {
    } else {
      var front, call := calls[..|calls| - 1], calls[|calls| - 1];
      assert calls == front + [call];
      hide *;
      LastOfCall(cfg, sid, front, call);
      AfterMore(cfg, sid, front, [call]);
      PrefixFaithful(After(cfg, sid, front), After(cfg, sid, calls));
      FaithfulTotal(cfg, sid, front);
      FaithfulAt(cfg, sid, front);
    }
  }

  lemma PrefixFaithful(rows: seq<RunStep>, all: seq<RunStep>)
    requires Faithful(all) && rows <= all
    ensures Faithful(rows) && |rows| <= |all|
  {
    FaithfulPrefix(all, |rows|);
  }

  lemma FaithfulAt(cfg: Config, sid: string, calls: seq<Call>)
    requires cfg.historyWindow > 0 && Faithful(After(cfg, sid, calls)) && |After(cfg, sid, calls)| < TWO_31
    ensures SurplusAt(cfg, sid, calls) == 0
  {
    if LastCompaction(cfg, sid, calls).Some? {
      var n := LastCompaction(cfg, sid, calls).value;
      NextSurplus(cfg, sid, calls, n);
      LastCompactionMeans(cfg, sid, calls);
      hide *;
      SplitCalls(calls, n);
      AfterMore(cfg, sid, calls[..n], [calls[n]] + calls[n + 1..]);
      PrefixFaithful(After(cfg, sid, calls[..n]), After(cfg, sid, calls));
      WellMarkedSession(cfg, sid, calls[..n]);
      FaithfulSurplus(cfg, sid, After(cfg, sid, calls[..n]), calls[n], After(cfg, sid, calls));
    }
  }

  /** Where indices are positions the new steps alone pay for every compaction. */
  lemma FaithfulAmortised(cfg: Config, sid: string, calls: seq<Call>, trigger: int, keep: int)
    requires cfg.historyWindow > 0 && 0 <= keep < trigger && AllSummarize(calls, trigger, keep)
    requires Faithful(After(cfg, sid, calls)) && |After(cfg, sid, calls)| < TWO_31
    ensures Summaries(After(cfg, sid, calls)) * (trigger - keep - 1) <= |Replay(After(cfg, sid, calls), None)|
  {
    hide *;
    CompactionAmortised(cfg, sid, calls, trigger, keep);
    FaithfulTotal(cfg, sid, calls);
  }

  /** Between one compaction and the next where indices are positions. */
  lemma FaithfulApart(cfg: Config, sid: string, calls: seq<Call>, call: Call, more: seq<Call>, next: Call,
                      trigger: int, keep: int)
    requires cfg.historyWindow > 0 && 0 <= keep < trigger
    requires Summarizes(call.env, trigger, keep) && Summarizes(next.env, trigger, keep)
    requires Compacts(cfg, sid, After(cfg, sid, calls), call)
    requires var all := After(cfg, sid, calls + [call] + more);
             && |After(cfg, sid, calls + [call])| <= |all| && NoUsable(all[|After(cfg, sid, calls + [call])|..])
             && Faithful(all) && |all| < TWO_31 && Compacts(cfg, sid, all, next)
    ensures var rows := After(cfg, sid, calls);
            var all := After(cfg, sid, calls + [call] + more);
            |rows| <= |all| && |Replay(all[|rows|..], None)| >= trigger - keep - 1
  {
    hide *;
    var rows := After(cfg, sid, calls);
    var all := After(cfg, sid, calls + [call] + more);
    CompactsOver(cfg, sid, all, next, trigger, keep);
    CompactionsApart(cfg, sid, calls, call, more, trigger, keep);
    AfterMore(cfg, sid, calls, [call] + more);
    assert calls + ([call] + more) == calls + [call] + more;
    PrefixFaithful(rows, all);
    WellMarkedSession(cfg, sid, calls);
    FaithfulSurplus(cfg, sid, rows, call, all);
  }

  // ---- with the settings derived from a context window ----

  /** Every positive window's settings ask for at least half a trigger of new steps per checkpoint. */
  lemma ProfileAmortised(w: int, cfg: Config, sid: string, calls: seq<Call>)
    requires w > 0 && cfg.historyWindow == Profiles.ProfileFor(w).historyWindow
    requires AllSummarize(calls, Profiles.ProfileFor(w).compactTrigger, Profiles.ProfileFor(w).compactKeep)
    ensures var p := Profiles.ProfileFor(w);
            var rows := After(cfg, sid, calls);
            && 2 * (p.compactTrigger - p.compactKeep - 1) >= p.compactTrigger
            && Summaries(rows) * (p.compactTrigger - p.compactKeep - 1)
               <= |Replay(rows, None)| + TotalSurplus(cfg, sid, calls)
  {
    Profiles.ProfileConsistent(w);
    Profiles.HistoryBounded(w);
    Profiles.TriggerHalved(w);
    hide *;
    CompactionAmortised(cfg, sid, calls, Profiles.ProfileFor(w).compactTrigger, Profiles.ProfileFor(w).compactKeep);
  }
}
