/** history.go: which rows a replay shows, compared with any other choice of rows. */
module Replays {
  import opened Text
  import opened Messages
  import opened Store
  import opened History

  predicate Plays(step: RunStep) { StepToTurn(step).Some? }

  function EntryOf(step: RunStep): Entry
    requires Plays(step)
  {
    Entry(StepToTurn(step).value, step.index)
  }

  /** The entries of the replayable rows the mask selects. */
  function Picked(rows: seq<RunStep>, mask: seq<bool>): seq<Entry>
    requires |mask| == |rows|
  {
    if rows == [] then []
    else (if mask[0] && Plays(rows[0]) then [EntryOf(rows[0])] else []) + Picked(rows[1..], mask[1..])
  }

  /** What filtering by a marker selects. */
  function FromMask(rows: seq<RunStep>, from: Option<int>): (mask: seq<bool>)
    ensures |mask| == |rows|
    ensures forall i | 0 <= i < |rows| :: mask[i] <==> (from.Some? ==> rows[i].index >= from.value)
  {
    seq(|rows|, i requires 0 <= i < |rows| => from.Some? ==> rows[i].index >= from.value)
  }

  lemma {:induction false} ReplayIsPicked(rows: seq<RunStep>, from: Option<int>)
    ensures Replay(rows, from) == Picked(rows, FromMask(rows, from))
  {
    hide StepToTurn;
    if rows != [] {
      ReplayIsPicked(rows[1..], from);
      assert FromMask(rows, from)[1..] == FromMask(rows[1..], from);
    }
  }

  lemma {:induction false} PickedConcat(a: seq<RunStep>, ma: seq<bool>, b: seq<RunStep>, mb: seq<bool>)
    requires |ma| == |a| && |mb| == |b|
    ensures Picked(a + b, ma + mb) == Picked(a, ma) + Picked(b, mb)
  {
    hide Plays, EntryOf;
    if a == [] {
      assert a + b == b && ma + mb == mb;
    } else {
      assert (a + b)[1..] == a[1..] + b && (ma + mb)[1..] == ma[1..] + mb;
      PickedConcat(a[1..], ma[1..], b, mb);
    }
  }

  predicate Same(rows: seq<RunStep>, a: seq<bool>, b: seq<bool>)
    requires |a| == |b| == |rows|
  {
    forall i | 0 <= i < |rows| :: Plays(rows[i]) ==> a[i] == b[i]
  }

  predicate Within(rows: seq<RunStep>, a: seq<bool>, b: seq<bool>)
    requires |a| == |b| == |rows|
  {
    forall i | 0 <= i < |rows| :: Plays(rows[i]) && a[i] ==> b[i]
  }

  lemma {:induction false} SamePicks(rows: seq<RunStep>, a: seq<bool>, b: seq<bool>)
    requires |a| == |b| == |rows| && Same(rows, a, b)
    ensures Picked(rows, a) == Picked(rows, b)
  {
    hide Plays;
    if rows != [] { SamePicks(rows[1..], a[1..], b[1..]); }
  }

  /** A smaller selection gives fewer entries, and as many only if it is the same. */
  lemma {:induction false} WithinPicks(rows: seq<RunStep>, a: seq<bool>, b: seq<bool>)
    requires |a| == |b| == |rows| && Within(rows, a, b)
    ensures |Picked(rows, a)| <= |Picked(rows, b)|
    ensures |Picked(rows, a)| == |Picked(rows, b)| ==> Same(rows, a, b)
  {
    hide Plays;
    if rows != [] {
      WithinPicks(rows[1..], a[1..], b[1..]);
      assert Plays(rows[0]) ==> (a[0] ==> b[0]);
      ConsSame(rows, a, b);
    }
  }

  lemma ConsSame(rows: seq<RunStep>, a: seq<bool>, b: seq<bool>)
    requires |a| == |b| == |rows| > 0
    ensures Same(rows, a, b) <==> (Plays(rows[0]) ==> a[0] == b[0]) && Same(rows[1..], a[1..], b[1..])
  {
    hide Plays;
    assert forall i | 0 < i < |rows| :: rows[i] == rows[1..][i - 1] && a[i] == a[1..][i - 1] && b[i] == b[1..][i - 1];
    if Same(rows, a, b) {
      forall i | 0 <= i < |rows| - 1 && Plays(rows[1..][i]) ensures a[1..][i] == b[1..][i] {
        var j := i + 1;
        assert Plays(rows[j]);
      }
    }
  }

  /** A selection whose entries all come from rows at or past the marker selects only such rows. */
  lemma {:induction false} PickedSteps(rows: seq<RunStep>, mask: seq<bool>, m: int)
    requires |mask| == |rows| && forall k | 0 <= k < |Picked(rows, mask)| :: Picked(rows, mask)[k].step >= m
    ensures Within(rows, mask, FromMask(rows, Some(m)))
  {
    hide StepToTurn;
    if rows != [] {
      var rest := Picked(rows[1..], mask[1..]);
      var all := Picked(rows, mask);
      assert all == (if mask[0] && Plays(rows[0]) then [EntryOf(rows[0])] else []) + rest;
      assert forall k | 0 <= k < |rest| :: rest[k] == all[|all| - |rest| + k];
      PickedSteps(rows[1..], mask[1..], m);
      assert mask[0] && Plays(rows[0]) ==> all[0].step == rows[0].index;
      ConsWithin(rows, mask, m);
    }
  }

  lemma ConsWithin(rows: seq<RunStep>, mask: seq<bool>, m: int)
    requires |mask| == |rows| > 0 && (mask[0] && Plays(rows[0]) ==> rows[0].index >= m)
    requires Within(rows[1..], mask[1..], FromMask(rows[1..], Some(m)))
    ensures Within(rows, mask, FromMask(rows, Some(m)))
  {
    hide Plays;
    forall i | 0 <= i < |rows| && Plays(rows[i]) && mask[i] ensures FromMask(rows, Some(m))[i] {
      if i > 0 { assert rows[1..][i - 1] == rows[i] && mask[1..][i - 1] == mask[i]; }
    }
  }

  lemma {:induction false} ReplaySteps(rows: seq<RunStep>, m: int)
    ensures forall k | 0 <= k < |Replay(rows, Some(m))| :: Replay(rows, Some(m))[k].step >= m
  {
    hide StepToTurn;
    if rows != [] { ReplaySteps(rows[1..], m); }
  }

  /** Filtering by a marker shows what a selection of rows shows exactly when it keeps the same
      replayable rows. */
  lemma MaskIff(rows: seq<RunStep>, m: int, mask: seq<bool>)
    requires |mask| == |rows|
    ensures Replay(rows, Some(m)) == Picked(rows, mask) <==> Same(rows, FromMask(rows, Some(m)), mask)
  {
    hide Picked, Replay, Plays, FromMask;
    ReplayIsPicked(rows, Some(m));
    if Replay(rows, Some(m)) == Picked(rows, mask) {
      ReplaySteps(rows, m);
      PickedSteps(rows, mask, m);
      WithinPicks(rows, mask, FromMask(rows, Some(m)));
    }
    if Same(rows, FromMask(rows, Some(m)), mask) { SamePicks(rows, FromMask(rows, Some(m)), mask); }
  }

  /** The selection of all rows from position p on. */
  function SuffixMask(n: nat, p: nat): (mask: seq<bool>)
    ensures |mask| == n && forall i | 0 <= i < n :: mask[i] <==> i >= p
  {
    seq(n, i => i >= p)
  }

  lemma {:induction false} SuffixPicked(rows: seq<RunStep>, p: nat)
    requires p <= |rows|
    ensures Picked(rows, SuffixMask(|rows|, p)) == Replay(rows[p..], None)
  {
    hide StepToTurn, Picked, Replay;
    ReplayIsPicked(rows[p..], None);
    var none := seq(p, i => false);
    assert SuffixMask(|rows|, p) == none + FromMask(rows[p..], None);
    assert rows == rows[..p] + rows[p..];
    PickedConcat(rows[..p], none, rows[p..], FromMask(rows[p..], None));
    NothingPicked(rows[..p], none);
  }

  lemma {:induction false} NothingPicked(rows: seq<RunStep>, mask: seq<bool>)
    requires |mask| == |rows| && forall i | 0 <= i < |rows| :: Plays(rows[i]) ==> !mask[i]
    ensures Picked(rows, mask) == []
  {
    hide Plays;
    if rows != [] { NothingPicked(rows[1..], mask[1..]); }
  }

  /** For every trace: a marker stands for the position p exactly when it tells the replayable rows
      from p on from those before it. */
  lemma FilterIff(rows: seq<RunStep>, p: nat, m: int)
    requires p <= |rows|
    ensures Replay(rows, Some(m)) == Replay(rows[p..], None) <==>
            forall i | 0 <= i < |rows| :: Plays(rows[i]) ==> (rows[i].index >= m <==> i >= p)
  {
    hide Picked, Replay, Plays;
    SuffixPicked(rows, p);
    MaskIff(rows, m, SuffixMask(|rows|, p));
  }
}
