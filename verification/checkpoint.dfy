/** Checkpoints in any session, whatever its store did: what a later Run rehydrates from one
    (history.go, run.go). */
module Checkpoints {
  import opened Text
  import opened Messages
  import opened Compact
  import opened Store
  import opened History
  import opened Run
  import opened Trace
  import opened Replays
  import opened Session

  function FromOf(loaded: seq<RunStep>): Option<int> {
    match LastCheckpoint(loaded)
    case None => None
    case Some(cp) => Some(cp.retainFrom)
  }

  lemma RebuiltParts(loaded: seq<RunStep>)
    ensures Rebuilt(loaded) == HeadOf(loaded) + Replay(loaded, FromOf(loaded))
  {
    hide Replay, LastCheckpoint;
  }

  /** Row i is replayed as an entry of number r or later, where h entries stand before the first row's. */
  predicate Retains(rows: seq<RunStep>, x: nat, h: nat, from: Option<int>, r: nat, i: nat)
    requires i < |rows|
  {
    x <= i && Kept(rows[i], from) && h + |Replay(rows[x..i], from)| >= r
  }

  function RetainMask(rows: seq<RunStep>, x: nat, h: nat, from: Option<int>, r: nat): (mask: seq<bool>)
    ensures |mask| == |rows| && forall i | 0 <= i < |rows| :: mask[i] <==> Retains(rows, x, h, from, r, i)
  {
    seq(|rows|, i requires 0 <= i < |rows| => Retains(rows, x, h, from, r, i))
  }

  lemma {:induction false} RetainedRows(rows: seq<RunStep>, x: nat, h: nat, from: Option<int>, r: nat)
    requires x <= |rows| && h <= r
    ensures var shown := Replay(rows[x..], from);
            Picked(rows, RetainMask(rows, x, h, from, r)) == if r - h <= |shown| then shown[r - h..] else []
    decreases |rows|
  {
    if |rows| == x {
      hide Replay, Picked;
      assert rows[x..] == [];
      NothingPicked(rows, RetainMask(rows, x, h, from, r));
      ReplayNothing(from);
    } else {
      hide *;
      var n := |rows| - 1;
      var front, row := rows[..n], rows[n];
      RetainedRows(front, x, h, from, r);
      FrontOf(rows, x);
      var before := Replay(front[x..], from);
      ReplaySnoc(front[x..], row, from);
      MaskSnoc(front, row, x, h, from, r);
      PickedConcat(front, RetainMask(front, x, h, from, r), [row], [Retains(rows, x, h, from, r, n)]);
      var b := Retains(rows, x, h, from, r, n);
      RetainsLast(rows, x, h, from, r);
      RowPicked(row, from, b);
      var picked := Picked(front, RetainMask(front, x, h, from, r));
      TailStep(before, Played(row, from), picked, Picked([row], [b]), r - h, b);
    }
  }

  lemma FrontOf(rows: seq<RunStep>, x: nat)
    requires x < |rows|
    ensures var n := |rows| - 1; var front := rows[..n];
            rows == front + [rows[n]] && rows[x..] == front[x..] + [rows[n]] && rows[x..n] == front[x..]
  {}

  lemma RetainsLast(rows: seq<RunStep>, x: nat, h: nat, from: Option<int>, r: nat)
    requires x < |rows|
    ensures var n := |rows| - 1;
            Retains(rows, x, h, from, r, n) <==> Kept(rows[n], from) && h + |Replay(rows[x..n], from)| >= r
  {}

  lemma RowPicked(row: RunStep, from: Option<int>, b: bool)
    requires b ==> Kept(row, from)
    ensures Picked([row], [b]) == if b then Played(row, from) else []
    ensures |Played(row, from)| <= 1 && (Played(row, from) != [] <==> Kept(row, from))
  {
    assert [row][1..] == [] && [b][1..] == [];
  }

  lemma TailStep<T>(before: seq<T>, played: seq<T>, front: seq<T>, picked: seq<T>, k: nat, b: bool)
    requires |played| <= 1 && (b <==> played != [] && |before| >= k)
    requires front == if k <= |before| then before[k..] else []
    requires picked == if b then played else []
    ensures front + picked == if k <= |before + played| then (before + played)[k..] else []
  {
    if k <= |before| {
      assert (before + played)[k..] == before[k..] + played;
    }
  }

  lemma MaskSnoc(front: seq<RunStep>, row: RunStep, x: nat, h: nat, from: Option<int>, r: nat)
    requires x <= |front|
    ensures var rows := front + [row];
            RetainMask(rows, x, h, from, r) ==
                RetainMask(front, x, h, from, r) + [Retains(rows, x, h, from, r, |front|)]
  {
    hide Kept, Replay;
    var rows := front + [row];
    forall i | 0 <= i < |front| ensures Retains(rows, x, h, from, r, i) == Retains(front, x, h, from, r, i) {
      if x <= i { assert rows[x..i] == front[x..i]; }
    }
  }

  // ---- the rows a checkpoint owes the Runs after it ----

  /** The rows whose turns belong into the conversation once the history of `rows` was compacted and
      the messages from r on retained: those behind the retained messages, and everything later. */
  predicate Owed(rows: seq<RunStep>, window: int, r: nat, i: nat)
    requires window > 0
  {
    i >= |rows|
    || var x := Dropped(|rows|, window);
       Retains(rows, x, |HeadOf(rows[x..])|, FromOf(rows[x..]), r, i)
  }

  function OwedMask(rows: seq<RunStep>, n: nat, window: int, r: nat): (mask: seq<bool>)
    requires window > 0 && |rows| <= n
    ensures |mask| == n && forall i | 0 <= i < n :: mask[i] <==> Owed(rows, window, r, i)
  {
    seq(n, i requires 0 <= i < n => Owed(rows, window, r, i))
  }

  /** What rehydration owes after the checkpoint c. */
  function Due(rows: seq<RunStep>, window: int, r: nat, c: RunStep, later: seq<RunStep>): seq<Entry>
    requires window > 0 && r <= |Rehydrated(rows, window)|
  {
    [Entry(Message("user", c.content), c.index)] + Rehydrated(rows, window)[r..] + Replay(later, None)
  }

  lemma OwedMaskIs(rows: seq<RunStep>, later: seq<RunStep>, window: int, r: nat)
    requires window > 0
    ensures var x := Dropped(|rows|, window);
            OwedMask(rows, |rows + later|, window, r) ==
            RetainMask(rows, x, |HeadOf(rows[x..])|, FromOf(rows[x..]), r) + FromMask(later, None)
    ensures Dropped(|rows|, window) <= |rows|
  {
    hide Retains, HeadOf, FromOf, Dropped;
  }

  lemma OwedRows(rows: seq<RunStep>, all: seq<RunStep>, window: int, r: nat)
    requires window > 0 && |rows| <= |all| && all[..|rows|] == rows && 0 < r <= |Rehydrated(rows, window)|
    ensures Picked(all, OwedMask(rows, |all|, window, r)) == Rehydrated(rows, window)[r..] + Replay(all[|rows|..], None)
  {
    hide *;
    var x := Dropped(|rows|, window);
    OwedMaskIs(rows, [], window, r);
    var h, from := HeadOf(rows[x..]), FromOf(rows[x..]);
    LoadedFrom(rows, window);
    RebuiltParts(rows[x..]);
    OwedPicks(rows, all, window, r);
    RetainedRows(rows, x, |h|, from, r);
    DropHead(h, Replay(rows[x..], from), r);
  }

  lemma OwedPicks(rows: seq<RunStep>, all: seq<RunStep>, window: int, r: nat)
    requires window > 0 && |rows| <= |all| && all[..|rows|] == rows
    ensures var x := Dropped(|rows|, window);
            x <= |rows| &&
            Picked(all, OwedMask(rows, |all|, window, r)) ==
            Picked(rows, RetainMask(rows, x, |HeadOf(rows[x..])|, FromOf(rows[x..]), r)) + Replay(all[|rows|..], None)
  {
    hide *;
    var later := all[|rows|..];
    OwedMaskIs(rows, later, window, r);
    var x := Dropped(|rows|, window);
    assert all == rows + later;
    PickedConcat(rows, RetainMask(rows, x, |HeadOf(rows[x..])|, FromOf(rows[x..]), r), later, FromMask(later, None));
    ReplayIsPicked(later, None);
  }

  /** A marker is never below the one the history it was computed from was filtered by. */
  lemma MarkerGrows(rows: seq<RunStep>, window: int, r: nat, from: int)
    requires window > 0 && 0 < r < |Rehydrated(rows, window)| && FromOf(rows[Dropped(|rows|, window)..]) == Some(from)
    ensures Rehydrated(rows, window)[r].step >= from
  {
    var loaded := rows[Dropped(|rows|, window)..];
    var h := HeadOf(loaded);
    hide *;
    LoadedFrom(rows, window);
    RebuiltParts(loaded);
    ReplaySteps(loaded, from);
    DropHead(h, Replay(loaded, Some(from)), r);
  }

  /** Once an owed row has left the window, every row the marker keeps in it is owed. */
  lemma NoneExtra(rows: seq<RunStep>, window: int, r: nat, m: int, lost: nat, i: nat)
    requires window > 0 && 0 < r <= |Rehydrated(rows, window)|
    requires RetainFromStep(r, StepsOf(Rehydrated(rows, window))) == Some(m)
    requires lost < i < |rows| && Owed(rows, window, r, lost) && Plays(rows[i]) && rows[i].index >= m
    ensures Owed(rows, window, r, i)
  {
    var x := Dropped(|rows|, window);
    var es := Rehydrated(rows, window);
    var h, from := |HeadOf(rows[x..])|, FromOf(rows[x..]);
    assert x <= lost && Kept(rows[lost], from) && h + |Replay(rows[x..lost], from)| >= r;
    hide Rehydrated, StepsOf, RetainFromStep, Replay, HeadOf, FromOf, StepToTurn, Dropped, Rebuilt;
    MoreEntries(rows, x, from, lost, i);
    AllEntries(rows, x, from, lost);
    LoadedFrom(rows, window);
    RebuiltParts(rows[x..]);
    assert |es| == h + |Replay(rows[x..], from)| > r;
    MarkerIs(es, r, m);
    if from.Some? { MarkerGrows(rows, window, r, from.value); }
    assert Kept(rows[i], from);
  }

  lemma MarkerIs(es: seq<Entry>, r: nat, m: int)
    requires 0 < r < |es| && RetainFromStep(r, StepsOf(es)) == Some(m)
    ensures m == es[r].step
  {}

  lemma MoreEntries(rows: seq<RunStep>, x: nat, from: Option<int>, i: nat, j: nat)
    requires x <= i <= j <= |rows|
    ensures |Replay(rows[x..i], from)| <= |Replay(rows[x..j], from)|
  {
    hide Replay;
    assert rows[x..j] == rows[x..i] + rows[i..j];
    ReplayAppend(rows[x..i], rows[i..j], from);
  }

  lemma AllEntries(rows: seq<RunStep>, x: nat, from: Option<int>, i: nat)
    requires x <= i < |rows| && Kept(rows[i], from)
    ensures |Replay(rows[x..i], from)| < |Replay(rows[x..], from)|
  {
    assert rows[x..i + 1] == rows[x..i] + [rows[i]] && rows[x..] == rows[x..|rows|];
    hide Replay;
    ReplaySnoc(rows[x..i], rows[i], from);
    MoreEntries(rows, x, from, i + 1, |rows|);
  }

  /** The rows replayed from a checkpoint with marker m, loaded from position x on, are those owed. */
  predicate MarkerRight(rows: seq<RunStep>, all: seq<RunStep>, window: int, r: nat, m: int)
    requires window > 0
  {
    forall i | 0 <= i < |all| :: Plays(all[i]) ==>
      (Owed(rows, window, r, i) <==> Dropped(|all|, window) <= i && all[i].index >= m)
  }

  /** For every trace: rehydrating gives exactly what the checkpoint owes if and only if the checkpoint
      is still in the window and its marker selects, among the loaded rows, the owed ones and no
      others, with none of them lost. */
  lemma CheckpointReplayIff(rows: seq<RunStep>, all: seq<RunStep>, c: nat, window: int, r: nat)
    requires window > 0 && |rows| <= c < |all| && all[..|rows|] == rows
    requires Usable(all[c]) && NoUsable(all[c + 1..]) && 0 < r <= |Rehydrated(rows, window)|
    requires RetainFromStep(r, StepsOf(Rehydrated(rows, window))) == Some(all[c].toolArgs.retainFromStep)
    ensures Rehydrated(all, window) == Due(rows, window, r, all[c], all[|rows|..]) <==>
            Dropped(|all|, window) <= c && MarkerRight(rows, all, window, r, all[c].toolArgs.retainFromStep)
  {
    var x, m := Dropped(|all|, window), all[c].toolArgs.retainFromStep;
    var e := Entry(Message("user", all[c].content), all[c].index);
    hide *;
    LoadedFrom(all, window);
    OwedRows(rows, all, window, r);
    DueIs(rows, window, r, all[c], all[|rows|..]);
    var due := Picked(all, OwedMask(rows, |all|, window, r));
    if x > c {
      BeyondWindow(rows, all, c, window, r);
      LongerDiffers(Rebuilt(all[x..]), e, due);
    } else {
      WithinWindow(all, c, x);
      MarkerIff(rows, all, window, r, m);
      ConsEquals(e, Replay(all[x..], Some(m)), due);
    }
  }

  lemma ConsEquals<T>(e: T, a: seq<T>, b: seq<T>)
    ensures [e] + a == [e] + b <==> a == b
  {
    assert ([e] + a)[1..] == a && ([e] + b)[1..] == b;
  }

  lemma LongerDiffers<T>(a: seq<T>, e: T, b: seq<T>)
    requires |a| <= |b|
    ensures a != [e] + b
  {
    assert |[e] + b| == 1 + |b|;
  }

  lemma DueIs(rows: seq<RunStep>, window: int, r: nat, c: RunStep, later: seq<RunStep>)
    requires window > 0 && r <= |Rehydrated(rows, window)|
    ensures Due(rows, window, r, c, later) ==
            [Entry(Message("user", c.content), c.index)] + (Rehydrated(rows, window)[r..] + Replay(later, None))
  {
    hide Rehydrated, Replay;
  }

  /** With the checkpoint in the window. */
  lemma WithinWindow(all: seq<RunStep>, c: nat, x: nat)
    requires x <= c < |all| && Usable(all[c]) && NoUsable(all[c + 1..])
    ensures all[c].toolArgs.Marker?
    ensures Rebuilt(all[x..]) ==
            [Entry(Message("user", all[c].content), all[c].index)]
                + Replay(all[x..], Some(all[c].toolArgs.retainFromStep))
  {
    assert all[x..][c - x] == all[c] && all[x..][c - x + 1..] == all[c + 1..];
    hide Replay, NoUsable;
    LastCheckpointOf(all[x..], c - x);
    hide LastCheckpoint;
  }

  lemma SuffixOfMask(rows: seq<RunStep>, all: seq<RunStep>, window: int, r: nat, x: nat)
    requires window > 0 && |rows| <= |all| && x <= |all|
    ensures var mask := OwedMask(rows, |all|, window, r);
            Picked(all, mask) == Picked(all[..x], mask[..x]) + Picked(all[x..], mask[x..])
  {
    hide *;
    var mask := OwedMask(rows, |all|, window, r);
    assert all == all[..x] + all[x..] && mask == mask[..x] + mask[x..];
    PickedConcat(all[..x], mask[..x], all[x..], mask[x..]);
  }

  /** Beyond the checkpoint nothing stands for it, so at least the summary is missing. */
  lemma BeyondWindow(rows: seq<RunStep>, all: seq<RunStep>, c: nat, window: int, r: nat)
    requires window > 0 && |rows| <= c < Dropped(|all|, window) && NoUsable(all[c + 1..])
    ensures var x := Dropped(|all|, window);
            |Rebuilt(all[x..])| <= |Picked(all, OwedMask(rows, |all|, window, r))|
  {
    var x := Dropped(|all|, window);
    var mask := OwedMask(rows, |all|, window, r);
    assert mask[x..] == FromMask(all[x..], None);
    assert all[c + 1..][x - c - 1..] == all[x..];
    assert NoUsable(all[x..]) by { hide Usable; }
    hide *;
    NoCheckpointIff(all[x..]);
    UnmarkedRebuilt(all[x..]);
    ReplayIsPicked(all[x..], None);
    SuffixOfMask(rows, all, window, r, x);
  }

  lemma UnmarkedRebuilt(loaded: seq<RunStep>)
    requires LastCheckpoint(loaded) == None
    ensures Rebuilt(loaded) == Replay(loaded, None)
  {}

  /** The rows of the window from position x on that the marker keeps are those owed. */
  predicate LoadedRight(rows: seq<RunStep>, loaded: seq<RunStep>, x: nat, window: int, r: nat, m: int)
    requires window > 0
  {
    forall j | 0 <= j < |loaded| :: Plays(loaded[j]) ==> (Owed(rows, window, r, x + j) <==> loaded[j].index >= m)
  }

  predicate LostBefore(rows: seq<RunStep>, all: seq<RunStep>, window: int, r: nat, x: nat)
    requires window > 0 && x <= |all|
  {
    exists i | 0 <= i < x :: Plays(all[i]) && Owed(rows, window, r, i)
  }

  lemma MarkerRightIff(rows: seq<RunStep>, all: seq<RunStep>, window: int, r: nat, m: int)
    requires window > 0
    ensures var x := Dropped(|all|, window);
            MarkerRight(rows, all, window, r, m) <==>
                !LostBefore(rows, all, window, r, x) && LoadedRight(rows, all[x..], x, window, r, m)
  {
    hide Plays, Owed, Dropped;
    var x := Dropped(|all|, window);
    if MarkerRight(rows, all, window, r, m) {
      forall j | 0 <= j < |all[x..]| && Plays(all[x..][j])
          ensures Owed(rows, window, r, x + j) <==> all[x..][j].index >= m {
        var i := x + j;
        assert all[i] == all[x..][j];
      }
    }
    if !LostBefore(rows, all, window, r, x) && LoadedRight(rows, all[x..], x, window, r, m) {
      forall i | 0 <= i < |all| && Plays(all[i]) ensures Owed(rows, window, r, i) <==> x <= i && all[i].index >= m {
        if x <= i {
          var j := i - x;
          assert all[x..][j] == all[i] && x + j == i;
        }
      }
    }
  }

  lemma LoadedMask(rows: seq<RunStep>, n: nat, window: int, r: nat, x: nat)
    requires window > 0 && |rows| <= n && x <= n
    ensures forall j | 0 <= j < n - x :: OwedMask(rows, n, window, r)[x..][j] == Owed(rows, window, r, x + j)
    ensures forall j | 0 <= j < x :: OwedMask(rows, n, window, r)[..x][j] == Owed(rows, window, r, j)
  {
    hide Owed;
  }

  lemma MarkerIff(rows: seq<RunStep>, all: seq<RunStep>, window: int, r: nat, m: int)
    requires window > 0 && |rows| <= |all| && all[..|rows|] == rows && 0 < r <= |Rehydrated(rows, window)|
    requires RetainFromStep(r, StepsOf(Rehydrated(rows, window))) == Some(m)
    ensures Replay(all[Dropped(|all|, window)..], Some(m)) == Picked(all, OwedMask(rows, |all|, window, r)) <==>
            MarkerRight(rows, all, window, r, m)
  {
    var x := Dropped(|all|, window);
    hide Rehydrated, StepsOf, RetainFromStep, Plays, Picked, Dropped, Replay, Owed, LoadedRight, MarkerRight;
    MarkerRightIff(rows, all, window, r, m);
    if i :| 0 <= i < x && Plays(all[i]) && Owed(rows, window, r, i) {
      LostShorter(rows, all, window, r, m, i);
    } else {
      NoneLostIff(rows, all, window, r, m);
    }
  }

  lemma LostShorter(rows: seq<RunStep>, all: seq<RunStep>, window: int, r: nat, m: int, lost: nat)
    requires window > 0 && |rows| <= |all| && all[..|rows|] == rows && 0 < r <= |Rehydrated(rows, window)|
    requires RetainFromStep(r, StepsOf(Rehydrated(rows, window))) == Some(m)
    requires lost < Dropped(|all|, window) && Plays(all[lost]) && Owed(rows, window, r, lost)
    ensures |Replay(all[Dropped(|all|, window)..], Some(m))| < |Picked(all, OwedMask(rows, |all|, window, r))|
  {
    var x := Dropped(|all|, window);
    var mask := OwedMask(rows, |all|, window, r);
    assert all[..x][lost] == all[lost];
    hide *;
    LoadedMask(rows, |all|, window, r, x);
    KeptAreOwed(rows, all, window, r, m, lost);
    ReplayIsPicked(all[x..], Some(m));
    WithinPicks(all[x..], FromMask(all[x..], Some(m)), mask[x..]);
    SuffixOfMask(rows, all, window, r, x);
    SomethingPicked(all[..x], mask[..x], lost);
  }

  lemma KeptAreOwed(rows: seq<RunStep>, all: seq<RunStep>, window: int, r: nat, m: int, lost: nat)
    requires window > 0 && |rows| <= |all| && all[..|rows|] == rows && 0 < r <= |Rehydrated(rows, window)|
    requires RetainFromStep(r, StepsOf(Rehydrated(rows, window))) == Some(m)
    requires lost < Dropped(|all|, window) && Owed(rows, window, r, lost)
    ensures var x := Dropped(|all|, window);
            Within(all[x..], FromMask(all[x..], Some(m)), OwedMask(rows, |all|, window, r)[x..])
  {
    var x := Dropped(|all|, window);
    hide Rehydrated, StepsOf, RetainFromStep, Plays, Dropped, Owed;
    LaterOwed(rows, window, r);
    LoadedMask(rows, |all|, window, r, x);
    forall j | 0 <= j < |all[x..]| && Plays(all[x..][j]) && all[x..][j].index >= m
        ensures OwedMask(rows, |all|, window, r)[x..][j] {
      var i := x + j;
      assert all[x..][j] == all[i];
      if i < |rows| {
        assert rows[i] == all[i];
        NoneExtra(rows, window, r, m, lost, i);
      }
    }
  }

  lemma LaterOwed(rows: seq<RunStep>, window: int, r: nat)
    requires window > 0
    ensures forall i | |rows| <= i :: Owed(rows, window, r, i)
  {}

  lemma {:induction false} SomethingPicked(rows: seq<RunStep>, mask: seq<bool>, i: nat)
    requires |mask| == |rows| && i < |rows| && mask[i] && Plays(rows[i])
    ensures Picked(rows, mask) != []
  {
    hide Plays;
    if i > 0 { SomethingPicked(rows[1..], mask[1..], i - 1); }
  }

  lemma NoneLostIff(rows: seq<RunStep>, all: seq<RunStep>, window: int, r: nat, m: int)
    requires window > 0 && |rows| <= |all| && !LostBefore(rows, all, window, r, Dropped(|all|, window))
    ensures var x := Dropped(|all|, window);
            Replay(all[x..], Some(m)) == Picked(all, OwedMask(rows, |all|, window, r)) <==>
            LoadedRight(rows, all[x..], x, window, r, m)
  {
    var x := Dropped(|all|, window);
    var mask := OwedMask(rows, |all|, window, r);
    NothingLost(rows, all, window, r, x);
    hide *;
    LoadedMask(rows, |all|, window, r, x);
    SuffixOfMask(rows, all, window, r, x);
    assert [] + Picked(all[x..], mask[x..]) == Picked(all[x..], mask[x..]);
    MaskIff(all[x..], m, mask[x..]);
    SameMeans(rows, all[x..], mask[x..], x, window, r, m);
  }

  lemma NothingLost(rows: seq<RunStep>, all: seq<RunStep>, window: int, r: nat, x: nat)
    requires window > 0 && |rows| <= |all| && x <= |all| && !LostBefore(rows, all, window, r, x)
    ensures Picked(all[..x], OwedMask(rows, |all|, window, r)[..x]) == []
  {
    LoadedMask(rows, |all|, window, r, x);
    hide Picked, Plays, Owed, OwedMask;
    assert forall i | 0 <= i < x :: all[..x][i] == all[i];
    NothingPicked(all[..x], OwedMask(rows, |all|, window, r)[..x]);
  }

  lemma SameMeans(rows: seq<RunStep>, loaded: seq<RunStep>, mask: seq<bool>, x: nat, window: int, r: nat, m: int)
    requires window > 0 && |mask| == |loaded|
    requires forall j | 0 <= j < |loaded| :: mask[j] == Owed(rows, window, r, x + j)
    ensures Same(loaded, FromMask(loaded, Some(m)), mask) <==> LoadedRight(rows, loaded, x, window, r, m)
  {
    hide Plays, Owed;
    var from := FromMask(loaded, Some(m));
    assert forall j | 0 <= j < |loaded| :: from[j] == (loaded[j].index >= m);
  }

  // ---- the checkpoints Runs write ----

  /** Of a Run's drafts only the second may be a checkpoint, so at most one row of it is, behind at
      most one other. */
  lemma {:induction false} WrittenUsable(sid: string, cfg: Config, ok: nat -> bool, prior: nat, ds: seq<Draft>, k: nat)
    requires forall i | 0 <= i < |ds| :: ds[i].kind == Summary ==> i == 1
    requires var w := Written(sid, cfg, ok, prior, ds); k < |w| && Usable(w[k])
    ensures var w := Written(sid, cfg, ok, prior, ds);
            |ds| > 1 && w[k] == Row(sid, cfg.redact, prior + 1, ds[1]) && k <= 1 && NoUsable(w[k + 1..])
    decreases |ds|
  {
    hide IsBlank, ToInt32;
    FirstWritten(sid, cfg, ok, prior, ds);
    var n := |ds| - 1;
    var w := Written(sid, cfg, ok, prior, ds);
    var front := Written(sid, cfg, ok, prior, ds[..n]);
    if n >= 2 {
      var row := Row(sid, cfg.redact, prior + n, ds[n]);
      assert !Usable(row);
      assert w == front + if ok(n) then [row] else [];
      WrittenUsable(sid, cfg, ok, prior, ds[..n], k);
      hide Written, Usable;
      assert w[k + 1..] == front[k + 1..] + if ok(n) then [row] else [];
    }
  }

  lemma FirstWritten(sid: string, cfg: Config, ok: nat -> bool, prior: nat, ds: seq<Draft>)
    ensures ds != [] ==>
              Written(sid, cfg, ok, prior, ds[..1]) == if ok(0) then [Row(sid, cfg.redact, prior, ds[0])] else []
    ensures |ds| == 1 ==> ds[..1] == ds
  {
    if ds != [] { assert ds[..1][..0] == []; }
  }

  /** Every usable row a Run adds is the checkpoint of its own compaction of the history it loaded. */
  lemma AddedUsable(cfg: Config, sid: string, rows: seq<RunStep>, call: Call, k: nat)
    requires cfg.historyWindow > 0
    requires var added := Added(cfg, sid, rows, call); k < |added| && Usable(added[k])
    ensures var added := Added(cfg, sid, rows, call);
            var es := Rehydrated(rows, cfg.historyWindow);
            && k <= 1 && NoUsable(added[k + 1..]) && es != [] && call.env.compactor.Some?
            && var r := call.env.compactor.value(Msgs(es));
            && Adopted(r, |es|) && r.retainedFrom > 0 && added[k].content == cfg.redact(r.summary)
            && RetainFromStep(r.retainedFrom, StepsOf(es)) == Some(added[k].toolArgs.retainFromStep)
  {
    AddedSummary(cfg, sid, rows, call, k);
    UnloadedSeed(cfg, call.env, rows, call.message);
    SeedCheckpoint(cfg, call.env, rows, call.message);
    hide Added, Seed, Prior, Usable, Rehydrated, Msgs, StepsOf, ToInt32;
  }

  /** It comes from the second of the Run's opening drafts. */
  lemma AddedSummary(cfg: Config, sid: string, rows: seq<RunStep>, call: Call, k: nat)
    requires var added := Added(cfg, sid, rows, call); k < |added| && Usable(added[k])
    ensures var added := Added(cfg, sid, rows, call);
            var prior := Prior(cfg, call.env, rows);
            var head := Seed(cfg, call.env, prior, call.message).drafts;
            k <= 1 && NoUsable(added[k + 1..]) && |head| == 2 && added[k] == Row(sid, cfg.redact, |prior| + 1, head[1])
  {
    var prior := Prior(cfg, call.env, rows);
    var ds := RunOf(cfg, rows, call).drafts;
    assert Added(cfg, sid, rows, call) == Written(sid, cfg, call.env.appendOk, |prior|, ds);
    assert ds == Whole(cfg, call.env, prior, call.message).drafts;
    TraceOpens(cfg, call.env, prior, call.message);
    TraceKinds(cfg, call.env, prior, call.message);
    hide Added, Whole, Seed, Prior, Usable, Written, RunOf;
    WrittenUsable(sid, cfg, call.env.appendOk, |prior|, ds, k);
    UsableIsSummary(Added(cfg, sid, rows, call)[k]);
    assert ds[1].kind == Summary;
  }

  lemma UsableIsSummary(row: RunStep)
    ensures Usable(row) ==> row.kind == Summary && row.toolArgs.Marker?
  {}

  /** A Run that could not load its history has nothing to compact. */
  lemma UnloadedSeed(cfg: Config, env: Env, rows: seq<RunStep>, message: string)
    ensures !env.loadOk ==> |Seed(cfg, env, Prior(cfg, env, rows), message).drafts| == 1
  {
    EmptyHistory(cfg.historyWindow);
    hide Rehydrated, ToInt32, LastRows;
    assert StepsOf([]) == [];
  }

  lemma EmptyHistory(window: int)
    ensures Rehydrated([], window) == []
  {
    assert Loaded([], window) == [];
  }

  /** How many messages of the history the Run's compaction folded. */
  function FoldedCount(cfg: Config, rows: seq<RunStep>, call: Call): (r: nat)
    ensures r <= |Rehydrated(rows, cfg.historyWindow)|
  {
    var es := Rehydrated(rows, cfg.historyWindow);
    var k := if call.env.compactor.Some? then call.env.compactor.value(Msgs(es)).retainedFrom else 0;
    if k < 0 then 0 else if k > |es| then |es| else k
  }

  lemma FoldedCountIs(cfg: Config, rows: seq<RunStep>, call: Call)
    requires var es := Rehydrated(rows, cfg.historyWindow);
             es != [] && call.env.compactor.Some? && call.env.compactor.value(Msgs(es)).retainedFrom > 0
    ensures var es := Rehydrated(rows, cfg.historyWindow);
            0 < FoldedCount(cfg, rows, call)
            && RetainFromStep(FoldedCount(cfg, rows, call), StepsOf(es)) ==
               RetainFromStep(call.env.compactor.value(Msgs(es)).retainedFrom, StepsOf(es))
  {
    hide Rehydrated, Msgs;
  }

  /** Over any Runs and whatever the store did: after a Run persisted a checkpoint, and Runs that
      persisted none, rehydrating gives the summary, the messages the compaction retained and all
      turns since if and only if the checkpoint and all those rows are still in the window and the
      marker selects exactly them. */
  lemma CheckpointReplay(cfg: Config, sid: string, calls: seq<Call>, call: Call, more: seq<Call>, k: nat)
    requires cfg.historyWindow > 0
    requires var added := Added(cfg, sid, After(cfg, sid, calls), call); k < |added| && Usable(added[k])
    requires var all := After(cfg, sid, calls + [call] + more);
             |After(cfg, sid, calls + [call])| <= |all| && NoUsable(all[|After(cfg, sid, calls + [call])|..])
    ensures var rows := After(cfg, sid, calls);
            var all := After(cfg, sid, calls + [call] + more);
            var c, r := |rows| + k, FoldedCount(cfg, rows, call);
            && c < |all|
            && (Rehydrated(all, cfg.historyWindow) == Due(rows, cfg.historyWindow, r, all[c], all[|rows|..]) <==>
                Dropped(|all|, cfg.historyWindow) <= c
                    && MarkerRight(rows, all, cfg.historyWindow, r, MarkerOf(all[c])))
  {
    var rows := After(cfg, sid, calls);
    var all := After(cfg, sid, calls + [call] + more);
    AfterOne(cfg, sid, calls, call);
    AfterMore(cfg, sid, calls + [call], more);
    hide *;
    CheckpointReplayRows(cfg, sid, rows, call, all, k);
  }

  lemma CheckpointReplayRows(cfg: Config, sid: string, rows: seq<RunStep>, call: Call, all: seq<RunStep>, k: nat)
    requires cfg.historyWindow > 0
    requires var added := Added(cfg, sid, rows, call);
             k < |added| && Usable(added[k]) && rows + added <= all && NoUsable(all[|rows + added|..])
    ensures var c, r := |rows| + k, FoldedCount(cfg, rows, call);
            && c < |all|
            && (Rehydrated(all, cfg.historyWindow) == Due(rows, cfg.historyWindow, r, all[c], all[|rows|..]) <==>
                Dropped(|all|, cfg.historyWindow) <= c
                    && MarkerRight(rows, all, cfg.historyWindow, r, MarkerOf(all[c])))
  {
    hide *;
    AddedUsable(cfg, sid, rows, call, k);
    FoldedCountIs(cfg, rows, call);
    TailUnusable(rows, Added(cfg, sid, rows, call), all, k);
    UsableMarker(all[|rows| + k]);
    CheckpointReplayIff(rows, all, |rows| + k, cfg.historyWindow, FoldedCount(cfg, rows, call));
  }

  function MarkerOf(step: RunStep): int { if step.toolArgs.Marker? then step.toolArgs.retainFromStep else 0 }

  lemma UsableMarker(step: RunStep)
    ensures Usable(step) ==> step.toolArgs.Marker? && MarkerOf(step) == step.toolArgs.retainFromStep
  {}

  lemma TailUnusable(rows: seq<RunStep>, added: seq<RunStep>, all: seq<RunStep>, k: nat)
    requires k < |added| && rows + added <= all && NoUsable(added[k + 1..]) && NoUsable(all[|rows + added|..])
    ensures all[..|rows|] == rows && all[|rows| + k] == added[k] && NoUsable(all[|rows| + k + 1..])
  {
    hide Usable;
    assert all == rows + added + all[|rows + added|..];
    assert all[|rows| + k + 1..] == added[k + 1..] + all[|rows + added|..];
  }
}
