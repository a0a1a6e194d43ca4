/** Sessions: what one Run's trace means to the Runs after it (run.go, history.go, compact.go). */
module Session {
  import opened Text
  import opened Messages
  import opened Compact
  import opened Store
  import opened History
  import opened Run
  import opened Trace

  datatype Call = Call(env: Env, message: string)

  /** What one call does to a session's rows. */
  function RunOf(cfg: Config, rows: seq<RunStep>, call: Call): Progress {
    Whole(cfg, call.env, Prior(cfg, call.env, rows), call.message)
  }

  function Added(cfg: Config, sid: string, rows: seq<RunStep>, call: Call): seq<RunStep> {
    if !call.env.sessionFound then []
    else Written(sid, cfg, call.env.appendOk, |Prior(cfg, call.env, rows)|, RunOf(cfg, rows, call).drafts)
  }

  /** The session's rows after these Runs, from the first one on. */
  function After(cfg: Config, sid: string, calls: seq<Call>): seq<RunStep> {
    if calls == [] then []
    else
      var before := After(cfg, sid, calls[..|calls| - 1]);
      before + Added(cfg, sid, before, calls[|calls| - 1])
  }

  lemma AfterOne(cfg: Config, sid: string, calls: seq<Call>, call: Call)
    ensures var before := After(cfg, sid, calls);
            After(cfg, sid, calls + [call]) == before + Added(cfg, sid, before, call)
  {
    assert (calls + [call])[..|calls|] == calls;
  }

  lemma {:induction false} AfterMore(cfg: Config, sid: string, calls: seq<Call>, more: seq<Call>)
    ensures After(cfg, sid, calls) <= After(cfg, sid, calls + more)
  {
    hide Added;
    if more == [] {
      assert calls + more == calls;
    } else {
      var last := more[|more| - 1];
      AfterMore(cfg, sid, calls, more[..|more| - 1]);
      assert calls + more == calls + more[..|more| - 1] + [last];
      AfterOne(cfg, sid, calls + more[..|more| - 1], last);
    }
  }

  /** The store never failed this call. */
  ghost predicate Sound(call: Call) {
    && call.env.sessionFound && call.env.loadOk
    && forall n: nat :: call.env.appendOk(n)
  }

  ghost predicate AllSound(calls: seq<Call>) { forall i | 0 <= i < |calls| :: Sound(calls[i]) }

  // ---- step indices ----

  predicate Faithful(rows: seq<RunStep>) { forall i | 0 <= i < |rows| :: rows[i].index == i }

  function Least(a: int, b: int): int { if a <= b then a else b }

  /** The rows a Run appends: its drafts, numbered on from the number of steps it loaded. */
  lemma AddedRows(cfg: Config, sid: string, rows: seq<RunStep>, call: Call)
    requires Sound(call) && cfg.historyWindow > 0
    ensures var added := Added(cfg, sid, rows, call);
            var ds := RunOf(cfg, rows, call).drafts;
            ds != [] && Numbered(added, sid, cfg, Least(|rows|, cfg.historyWindow), ds)
  {
    AddedIs(cfg, sid, rows, call);
    assert forall n: nat :: call.env.appendOk(n);
    hide *;
    WrittenAll(sid, cfg, call.env.appendOk, |Prior(cfg, call.env, rows)|, RunOf(cfg, rows, call).drafts);
  }

  lemma AddedIs(cfg: Config, sid: string, rows: seq<RunStep>, call: Call)
    requires Sound(call) && cfg.historyWindow > 0
    ensures var prior := Prior(cfg, call.env, rows);
            var ds := RunOf(cfg, rows, call).drafts;
            && |prior| == Least(|rows|, cfg.historyWindow)
            && Added(cfg, sid, rows, call) == Written(sid, cfg, call.env.appendOk, |prior|, ds)
            && ds != [] && RunOf(cfg, rows, call) == Whole(cfg, call.env, prior, call.message)
  {
    hide Written, Whole, Seed;
    TraceOpens(cfg, call.env, Prior(cfg, call.env, rows), call.message);
  }

  /** No Run's indices can leave int32. */
  predicate Modest(cfg: Config) {
    0 < cfg.historyWindow && 0 <= cfg.maxIterations && cfg.historyWindow + 2 * cfg.maxIterations + 3 < TWO_31
  }

  /** Of n appends none succeeds before the d-th, and from there on none after one that failed. */
  ghost predicate InStep(ok: nat -> bool, n: nat, d: nat) {
    forall k | 0 <= k < n && ok(k) :: d <= k && forall j | d <= j < k :: ok(j)
  }

  /** The appends of this Run that succeed are those its numbering allows for: with d rows of the
      session not loaded, the first d must fail, and none may succeed after a later failure. */
  ghost predicate Aligned(cfg: Config, rows: seq<RunStep>, call: Call) {
    call.env.sessionFound ==>
      InStep(call.env.appendOk, |RunOf(cfg, rows, call).drafts|, |rows| - |Prior(cfg, call.env, rows)|)
  }

  /** Whatever the store does, every row's index is its position exactly when every Run was aligned. */
  lemma {:induction false} FaithfulIff(cfg: Config, sid: string, calls: seq<Call>)
    requires Modest(cfg)
    ensures Faithful(After(cfg, sid, calls)) <==>
            forall n | 0 <= n < |calls| :: Aligned(cfg, After(cfg, sid, calls[..n]), calls[n])
    decreases |calls|
  {
    hide Added, Aligned, Modest;
    if calls == [] {
    } else {
      var front, call := calls[..|calls| - 1], calls[|calls| - 1];
      var rows := After(cfg, sid, front);
      assert After(cfg, sid, calls) == rows + Added(cfg, sid, rows, call);
      hide After, Faithful;
      FaithfulIff(cfg, sid, front);
      AddedAligned(cfg, sid, rows, call);
      assert forall n | 0 <= n < |front| :: calls[..n] == front[..n] && calls[n] == front[n];
      assert calls[..|calls| - 1] == front;
    }
  }

  lemma AddedAligned(cfg: Config, sid: string, rows: seq<RunStep>, call: Call)
    requires Modest(cfg)
    ensures Faithful(rows + Added(cfg, sid, rows, call)) <==> Faithful(rows) && Aligned(cfg, rows, call)
  {
    var prior := Prior(cfg, call.env, rows);
    FewDrafts(cfg, rows, call);
    assert Added(cfg, sid, rows, call) ==
           if call.env.sessionFound
           then Written(sid, cfg, call.env.appendOk, |prior|, RunOf(cfg, rows, call).drafts)
           else [];
    assert Aligned(cfg, rows, call) <==>
           (call.env.sessionFound ==> InStep(call.env.appendOk, |RunOf(cfg, rows, call).drafts|, |rows| - |prior|));
    hide *;
    FaithfulConcat(rows, Added(cfg, sid, rows, call));
    NoneIndexed(|rows|);
    WrittenInStep(sid, cfg, call.env.appendOk, |prior|, RunOf(cfg, rows, call).drafts, |rows|);
  }

  lemma FewDrafts(cfg: Config, rows: seq<RunStep>, call: Call)
    requires Modest(cfg)
    ensures var prior := Prior(cfg, call.env, rows);
            |prior| <= |rows| && |prior| + |RunOf(cfg, rows, call).drafts| < TWO_31
  {
    hide Whole;
    StreamsBounded(cfg, call.env, Prior(cfg, call.env, rows), call.message);
  }

  predicate Indexed(rows: seq<RunStep>, start: int) { forall i | 0 <= i < |rows| :: rows[i].index == start + i }

  lemma FaithfulConcat(rows: seq<RunStep>, added: seq<RunStep>)
    ensures Faithful(rows + added) <==> Faithful(rows) && Indexed(added, |rows|)
  {
    var all := rows + added;
    if Faithful(all) {
      forall i | 0 <= i < |rows| ensures rows[i].index == i { assert all[i] == rows[i]; }
      forall i | 0 <= i < |added| ensures added[i].index == |rows| + i {
        var j := |rows| + i;
        assert all[j] == added[i];
      }
    } else {
      var i :| 0 <= i < |all| && all[i].index != i;
      if i < |rows| { assert rows[i] == all[i]; } else { assert added[i - |rows|] == all[i]; }
    }
  }

  lemma NoneIndexed(start: int)
    ensures Indexed([], start)
  {}

  lemma {:induction false} WrittenInStep(sid: string, cfg: Config, ok: nat -> bool, prior: nat, ds: seq<Draft>,
      start: nat)
    requires prior <= start && prior + |ds| < TWO_31
    ensures Indexed(Written(sid, cfg, ok, prior, ds), start) <==> InStep(ok, |ds|, start - prior)
  {
    if ds != [] {
      var n := |ds| - 1;
      var w := Written(sid, cfg, ok, prior, ds[..n]);
      WrittenInStep(sid, cfg, ok, prior, ds[..n], start);
      if InStep(ok, n, start - prior) { InStepCount(sid, cfg, ok, prior, ds[..n], start - prior); }
      var row := Row(sid, cfg.redact, prior + n, ds[n]);
      assert Written(sid, cfg, ok, prior, ds) == w + if ok(n) then [row] else [];
      assert w + [] == w;
      hide InStep, Written, Indexed;
      InStepSnoc(ok, n, start - prior);
      assert row.index == prior + n;
      SnocIndices(w, row, start);
    }
  }

  lemma SnocIndices(w: seq<RunStep>, row: RunStep, start: nat)
    ensures Indexed(w + [row], start) <==> Indexed(w, start) && row.index == start + |w|
  {
    var all := w + [row];
    assert all[|w|] == row;
    assert forall i | 0 <= i < |w| :: all[i] == w[i];
  }

  lemma InStepSnoc(ok: nat -> bool, n: nat, d: nat)
    ensures InStep(ok, n + 1, d) <==> InStep(ok, n, d) && (ok(n) ==> d <= n && forall j | d <= j < n :: ok(j))
  {}

  lemma {:induction false} InStepCount(sid: string, cfg: Config, ok: nat -> bool, prior: nat, ds: seq<Draft>, d: nat)
    requires InStep(ok, |ds|, d)
    ensures var n := |Written(sid, cfg, ok, prior, ds)|;
            && (|ds| < d ==> n == 0)
            && (|ds| >= d ==> n <= |ds| - d && (n == |ds| - d <==> forall j | d <= j < |ds| :: ok(j)))
  {
    if ds != [] {
      InStepCount(sid, cfg, ok, prior, ds[..|ds| - 1], d);
    }
  }

  /** In particular, when the store never fails, exactly as long as the session had not outgrown the
      window before its last Run: from then on each Run numbers its steps from the window again. */
  lemma {:induction false} FaithfulWindowIff(cfg: Config, sid: string, calls: seq<Call>, call: Call)
    requires AllSound(calls) && Sound(call) && cfg.historyWindow > 0
    requires |After(cfg, sid, calls + [call])| < TWO_31
    ensures Faithful(After(cfg, sid, calls + [call])) <==> |After(cfg, sid, calls)| <= cfg.historyWindow
    decreases |calls|
  {
    var rows := After(cfg, sid, calls);
    AfterOne(cfg, sid, calls, call);
    if |rows| <= cfg.historyWindow { FaithfulWithin(cfg, sid, calls); }
    hide Added, Faithful, AllSound, Sound;
    FaithfulStep(cfg, sid, rows, call);
  }

  lemma FaithfulStep(cfg: Config, sid: string, rows: seq<RunStep>, call: Call)
    requires Sound(call) && cfg.historyWindow > 0 && |rows| + |Added(cfg, sid, rows, call)| < TWO_31
    requires |rows| <= cfg.historyWindow ==> Faithful(rows)
    ensures Faithful(rows + Added(cfg, sid, rows, call)) <==> |rows| <= cfg.historyWindow
  {
    hide Added, Faithful, Least;
    AddedIndices(cfg, sid, rows, call);
    Continues(rows, Added(cfg, sid, rows, call), Least(|rows|, cfg.historyWindow));
    LeastIs(|rows|, cfg.historyWindow);
  }

  lemma LeastIs(a: int, b: int)
    ensures Least(a, b) == a <==> a <= b
  {}

  lemma Continues(rows: seq<RunStep>, added: seq<RunStep>, start: int)
    requires added != [] && forall i | 0 <= i < |added| :: added[i].index == start + i
    ensures Faithful(rows + added) <==> Faithful(rows) && start == |rows|
  {
    if Faithful(rows + added) {
      assert forall i | 0 <= i < |rows| :: (rows + added)[i] == rows[i];
      assert (rows + added)[|rows|] == added[0];
    }
  }

  lemma AddedIndices(cfg: Config, sid: string, rows: seq<RunStep>, call: Call)
    requires Sound(call) && cfg.historyWindow > 0 && |rows| + |Added(cfg, sid, rows, call)| < TWO_31
    ensures var added := Added(cfg, sid, rows, call);
            added != [] && forall i | 0 <= i < |added| :: added[i].index == Least(|rows|, cfg.historyWindow) + i
  {
    hide Added, RunOf;
    AddedRows(cfg, sid, rows, call);
  }

  lemma {:induction false} FaithfulWithin(cfg: Config, sid: string, calls: seq<Call>)
    requires AllSound(calls) && cfg.historyWindow > 0
    requires |After(cfg, sid, calls)| < TWO_31 && |After(cfg, sid, calls)| <= cfg.historyWindow
    ensures Faithful(After(cfg, sid, calls))
    decreases |calls|
  {
    hide Added, RunOf;
    if calls != [] {
      var front, call := calls[..|calls| - 1], calls[|calls| - 1];
      var rows := After(cfg, sid, front);
      var added := Added(cfg, sid, rows, call);
      assert After(cfg, sid, calls) == rows + added;
      hide After;
      FaithfulWithin(cfg, sid, front);
      AddedIndices(cfg, sid, rows, call);
      Continues(rows, added, |rows|);
    }
  }

  // ---- replay by position ----

  /** Where filtering rows by index `m` starts keeping them. */
  function Cut(x: int, m: int, n: int): int { if m <= x then x else if m >= n then n else m }

  lemma {:induction false} FilterSuffix(rows: seq<RunStep>, x: nat, m: int)
    requires Faithful(rows) && x <= |rows|
    ensures Replay(rows[x..], Some(m)) == Replay(rows[Cut(x, m, |rows|)..], None)
    decreases |rows| - x
  {
    hide StepToTurn;
    if x < |rows| {
      assert rows[x..][1..] == rows[x + 1..];
      FilterSuffix(rows, x + 1, m);
    }
  }

  /** The entry for message j names the row it came from, and the replay from that row on, or from
      the one after it, is the rest of the entries. */
  lemma {:induction false} SuffixAt(rows: seq<RunStep>, y: nat, j: nat)
    requires Faithful(rows) && y <= |rows| && j < |Replay(rows[y..], None)|
    ensures var es := Replay(rows[y..], None); var q := es[j].step;
            && y <= q < |rows| && StepToTurn(rows[q]).Some?
            && Replay(rows[q..], None) == es[j..] && Replay(rows[q + 1..], None) == es[j + 1..]
    decreases |rows| - y
  {
    hide StepToTurn, Replay;
    ReplayFrom(rows, y);
    if y < |rows| {
      var es := Replay(rows[y..], None);
      var rest := Replay(rows[y + 1..], None);
      if StepToTurn(rows[y]).Some? {
        assert es[1..] == rest;
        if j > 0 {
          SuffixAt(rows, y + 1, j - 1);
          assert es[j..] == rest[j - 1..] && es[j + 1..] == rest[j..];
        }
      } else {
        SuffixAt(rows, y + 1, j);
      }
    }
  }

  lemma ReplayFrom(rows: seq<RunStep>, y: nat)
    requires y <= |rows|
    ensures y == |rows| ==> Replay(rows[y..], None) == []
    ensures y < |rows| ==>
              var rest := Replay(rows[y + 1..], None);
              Replay(rows[y..], None) ==
              if StepToTurn(rows[y]).Some? then [Entry(StepToTurn(rows[y]).value, rows[y].index)] + rest else rest
  {
    hide StepToTurn;
    if y < |rows| { assert rows[y..][1..] == rows[y + 1..]; }
  }

  lemma SplitReplay(rows: seq<RunStep>, y: nat, z: nat)
    requires y <= z <= |rows|
    ensures Replay(rows[y..], None) == Replay(rows[y..z], None) + Replay(rows[z..], None)
  {
    assert rows[y..] == rows[y..z] + rows[z..];
    ReplayAppend(rows[y..z], rows[z..], None);
  }

  predicate AnyReplayed(rows: seq<RunStep>) { exists i | 0 <= i < |rows| :: StepToTurn(rows[i]).Some? }

  lemma {:induction false} AnyReplayedIff(rows: seq<RunStep>)
    ensures AnyReplayed(rows) <==> Replay(rows, None) != []
  {
    hide StepToTurn;
    if rows != [] {
      AnyReplayedIff(rows[1..]);
      assert forall i | 0 < i < |rows| :: rows[i] == rows[1..][i - 1];
      assert AnyReplayed(rows) <==> StepToTurn(rows[0]).Some? || AnyReplayed(rows[1..]) by {
        if AnyReplayed(rows[1..]) {
          var i :| 0 <= i < |rows[1..]| && StepToTurn(rows[1..][i]).Some?;
          assert rows[i + 1] == rows[1..][i];
        }
      }
    }
  }

  // ---- checkpoints ----

  predicate NoUsable(rows: seq<RunStep>) { forall i | 0 <= i < |rows| :: !Usable(rows[i]) }

  lemma {:induction false} LastCheckpointOf(rows: seq<RunStep>, at: nat)
    requires at < |rows| && Usable(rows[at]) && NoUsable(rows[at + 1..])
    ensures LastCheckpoint(rows) == Some(Checkpoint(rows[at].content, rows[at].toolArgs.retainFromStep, rows[at].index))
  {
    hide Usable;
    var n := |rows| - 1;
    if at < n {
      assert rows[n] == rows[at + 1..][n - at - 1];
      assert rows[..n][at + 1..] == rows[at + 1..][..n - at - 1];
      LastCheckpointOf(rows[..n], at);
    }
  }

  lemma {:induction false} NoCheckpointIff(rows: seq<RunStep>)
    ensures LastCheckpoint(rows) == None <==> NoUsable(rows)
  {
    hide Usable;
    if rows != [] {
      var n := |rows| - 1;
      NoCheckpointIff(rows[..n]);
      assert forall i | 0 <= i < n :: rows[..n][i] == rows[i];
    }
  }

  /** The position of the last usable checkpoint. */
  lemma {:induction false} CheckpointAt(rows: seq<RunStep>) returns (at: nat)
    requires LastCheckpoint(rows).Some?
    ensures at < |rows| && Usable(rows[at]) && NoUsable(rows[at + 1..])
    ensures LastCheckpoint(rows) == Some(Checkpoint(rows[at].content, rows[at].toolArgs.retainFromStep, rows[at].index))
  {
    hide Usable;
    var n := |rows| - 1;
    if Usable(rows[n]) {
      at := n;
    } else {
      at := CheckpointAt(rows[..n]);
      assert rows[at + 1..] == rows[..n][at + 1..] + [rows[n]];
    }
  }

  /** No checkpoint resumes later than its own row. */
  predicate WellMarked(rows: seq<RunStep>) {
    forall i | 0 <= i < |rows| :: Usable(rows[i]) ==> rows[i].toolArgs.retainFromStep <= i
  }

  function HeadOf(loaded: seq<RunStep>): (h: seq<Entry>)
    ensures |h| <= 1
  {
    match LastCheckpoint(loaded)
    case None => []
    case Some(cp) => [Entry(Message("user", cp.summary), cp.at)]
  }

  /** The position from which the rows loaded from x on are replayed. */
  function StartOf(rows: seq<RunStep>, x: nat): (y: int)
    requires x <= |rows|
    ensures x <= y <= |rows|
  {
    match LastCheckpoint(rows[x..])
    case None => x
    case Some(cp) => Cut(x, cp.retainFrom, |rows|)
  }

  lemma RebuiltByPosition(rows: seq<RunStep>, x: nat)
    requires Faithful(rows) && x <= |rows|
    ensures Rebuilt(rows[x..]) == HeadOf(rows[x..]) + Replay(rows[StartOf(rows, x)..], None)
  {
    hide Replay, LastCheckpoint, Faithful;
    if LastCheckpoint(rows[x..]).Some? {
      FilterSuffix(rows, x, LastCheckpoint(rows[x..]).value.retainFrom);
    }
  }

  /** The rows before the window. */
  function Dropped(n: nat, window: int): (x: nat)
    requires window > 0
    ensures x <= n
  {
    if n <= window then 0 else n - window
  }

  lemma LoadedFrom(rows: seq<RunStep>, window: int)
    requires window > 0
    ensures Rehydrated(rows, window) == Rebuilt(rows[Dropped(|rows|, window)..])
    ensures Rehydrated(LastRows(rows, window), window) == Rehydrated(rows, window)
  {
    hide Rebuilt;
    assert rows[Dropped(|rows|, window)..] == LastRows(rows, window);
  }

  /** A head's entry comes from the row of the checkpoint, from which replay does not start later. */
  lemma HeadStep(rows: seq<RunStep>, x: nat)
    requires Faithful(rows) && WellMarked(rows) && x <= |rows| && HeadOf(rows[x..]) != []
    ensures var at := HeadOf(rows[x..])[0].step; StartOf(rows, x) <= at < |rows|
  {
    hide Usable, LastCheckpoint;
    var a := CheckpointAt(rows[x..]);
    assert rows[x..][a] == rows[x + a];
  }

  lemma StepsBelow(rows: seq<RunStep>, x: nat, j: nat)
    requires Faithful(rows) && WellMarked(rows) && x <= |rows| && j < |Rebuilt(rows[x..])|
    ensures 0 <= Rebuilt(rows[x..])[j].step < |rows|
  {
    RebuiltByPosition(rows, x);
    var h := HeadOf(rows[x..]);
    assert |h| <= 1;
    if j < |h| { HeadStep(rows, x); } else { SuffixAt(rows, StartOf(rows, x), j - |h|); }
  }

  /** The step a checkpoint names is the one from which replaying the session gives exactly the
      messages the compaction retained. */
  lemma RetainNames(rows: seq<RunStep>, x: nat, r: int)
    requires Faithful(rows) && WellMarked(rows) && x <= |rows| < TWO_31
    requires 0 < r <= |Rebuilt(rows[x..])|
    ensures var es := Rebuilt(rows[x..]); var m := RetainFromStep(r, StepsOf(es));
            m.Some? && 0 <= m.value <= |rows| && Replay(rows[m.value..], None) == es[r..]
  {
    hide Rebuilt, Replay, Faithful, WellMarked, ToInt32;
    var es := Rebuilt(rows[x..]);
    if r < |es| {
      EntryNames(rows, x, r);
    } else {
      AllFolded(rows, x);
      assert es[r..] == [];
    }
  }

  lemma EntryNames(rows: seq<RunStep>, x: nat, r: nat)
    requires Faithful(rows) && WellMarked(rows) && x <= |rows|
    requires 0 < r < |Rebuilt(rows[x..])|
    ensures var es := Rebuilt(rows[x..]); var m := es[r].step;
            0 <= m <= |rows| && Replay(rows[m..], None) == es[r..]
  {
    var h, y := HeadOf(rows[x..]), StartOf(rows, x);
    assert |h| <= 1;
    hide *;
    RebuiltByPosition(rows, x);
    SuffixAt(rows, y, r - |h|);
    DropHead(h, Replay(rows[y..], None), r);
  }

  lemma DropHead<T>(h: seq<T>, s: seq<T>, r: nat)
    requires |h| <= r <= |h| + |s|
    ensures (h + s)[r..] == s[r - |h|..]
    ensures r < |h| + |s| ==> (h + s)[r] == s[r - |h|]
  {}

  /** Nothing is replayed from the row after the last entry's. */
  lemma AllFolded(rows: seq<RunStep>, x: nat)
    requires Faithful(rows) && WellMarked(rows) && x <= |rows|
    requires Rebuilt(rows[x..]) != []
    ensures var es := Rebuilt(rows[x..]); var q := es[|es| - 1].step;
            0 <= q < |rows| && Replay(rows[q + 1..], None) == []
  {
    hide *;
    RebuiltByPosition(rows, x);
    var h, y := HeadOf(rows[x..]), StartOf(rows, x);
    var rest := Replay(rows[y..], None);
    if rest != [] {
      LastOf(h, rest);
      SuffixAt(rows, y, |rest| - 1);
    } else {
      assert h + rest == h;
      HeadStep(rows, x);
      NoneLater(rows, y, h[0].step + 1);
    }
  }

  lemma LastOf<T>(h: seq<T>, s: seq<T>)
    requires s != []
    ensures (h + s)[|h + s| - 1] == s[|s| - 1] && s[|s|..] == []
  {}

  lemma NoneLater(rows: seq<RunStep>, y: nat, z: nat)
    requires y <= z <= |rows| && Replay(rows[y..], None) == []
    ensures Replay(rows[z..], None) == []
  {
    hide Replay;
    SplitReplay(rows, y, z);
  }

  /** What rehydration must give back after rows + [u, c] + rest, where c is the checkpoint of a
      compaction that retained es[r..]. */
  function Wanted(rows: seq<RunStep>, es: seq<Entry>, r: nat, c: RunStep, rest: seq<RunStep>): seq<Entry>
    requires r <= |es|
  {
    [Entry(Message("user", c.content), |rows| + 1)] + es[r..] + Replay(rest, None)
  }

  lemma WantedByPosition(rows: seq<RunStep>, x: nat, r: int, all: seq<RunStep>)
    requires Faithful(rows) && WellMarked(rows) && x <= |rows| < TWO_31
    requires 0 < r <= |Rebuilt(rows[x..])|
    requires |rows| + 2 <= |all| && all[..|rows|] == rows
    ensures var es := Rebuilt(rows[x..]); var m := RetainFromStep(r, StepsOf(es));
            m.Some? && 0 <= m.value <= |rows|
            && Wanted(rows, es, r, all[|rows| + 1], all[|rows|..]) ==
               [Entry(Message("user", all[|rows| + 1].content), |rows| + 1)] + Replay(all[m.value..], None)
  {
    hide Rebuilt, Replay, Faithful, WellMarked;
    RetainNames(rows, x, r);
    var es := Rebuilt(rows[x..]);
    var m := RetainFromStep(r, StepsOf(es)).value;
    SplitReplay(all, m, |rows|);
    assert all[m..|rows|] == rows[m..];
    var head := [Entry(Message("user", all[|rows| + 1].content), |rows| + 1)];
    assert head + (es[r..] + Replay(all[|rows|..], None)) == head + es[r..] + Replay(all[|rows|..], None);
  }

  /** Where indices are positions: rehydrating loses nothing of what a checkpoint retained, nor of what
      came after it, exactly when no replayable row it retained has fallen out of the window. */
  lemma CheckpointFaithfulIff(rows: seq<RunStep>, all: seq<RunStep>, window: int, r: int)
    requires window > 0 && Faithful(all) && WellMarked(rows) && |all| < TWO_31
    requires |rows| + 2 <= |all| && all[..|rows|] == rows
    requires 0 < r <= |Rehydrated(rows, window)|
    requires StepToTurn(all[|rows|]).Some? && Usable(all[|rows| + 1]) && NoUsable(all[|rows| + 2..])
    requires RetainFromStep(r, StepsOf(Rehydrated(rows, window))) == Some(all[|rows| + 1].toolArgs.retainFromStep)
    ensures var es := Rehydrated(rows, window);
            var want := Wanted(rows, es, r, all[|rows| + 1], all[|rows|..]);
            var m := all[|rows| + 1].toolArgs.retainFromStep;
            var x := Dropped(|all|, window);
            && 0 <= m <= |rows|
            && (Rehydrated(all, window) == want <==> m >= x || !AnyReplayed(all[m..x]))
            && (Rehydrated(all, window) != want ==> |Rehydrated(all, window)| < |want|)
  {
    var m := all[|rows| + 1].toolArgs.retainFromStep;
    hide Replay, StepToTurn, Usable, Faithful;
    var es := Rehydrated(rows, window);
    LoadedFrom(rows, window);
    assert Faithful(rows) by { FaithfulPrefix(all, |rows|); }
    WantedByPosition(rows, Dropped(|rows|, window), r, all);
    LoadedFrom(all, window);
    var x := Dropped(|all|, window);
    var want := Wanted(rows, es, r, all[|rows| + 1], all[|rows|..]);
    hide *;
    WindowIff(all, |rows| + 1, x, m);
  }

  lemma WindowIff(all: seq<RunStep>, c: nat, x: nat, m: nat)
    requires Faithful(all) && x <= |all| && m < c < |all|
    requires Usable(all[c]) && NoUsable(all[c + 1..]) && all[c].toolArgs.retainFromStep == m
             && StepToTurn(all[c - 1]).Some?
    ensures var want := [Entry(Message("user", all[c].content), c)] + Replay(all[m..], None);
            && (Rebuilt(all[x..]) == want <==> m >= x || !AnyReplayed(all[m..x]))
            && (Rebuilt(all[x..]) != want ==> |Rebuilt(all[x..])| < |want|)
  {
    hide Replay, StepToTurn, Usable, Faithful, Rebuilt;
    if x <= c {
      RehydratedWithin(all, c, x, m);
      if m < x {
        SplitReplay(all, m, x);
        AnyReplayedIff(all[m..x]);
      }
    } else {
      RehydratedBeyond(all, c, x);
      SplitReplay(all, m, x);
      AnyReplayedIff(all[m..x]);
      assert all[m..x][c - 1 - m] == all[c - 1];
    }
  }

  lemma FaithfulPrefix(all: seq<RunStep>, n: nat)
    requires Faithful(all) && n <= |all|
    ensures Faithful(all[..n])
  {}

  lemma RehydratedWithin(all: seq<RunStep>, c: nat, x: nat, m: int)
    requires Faithful(all) && x <= c < |all| && Usable(all[c]) && NoUsable(all[c + 1..])
             && all[c].toolArgs.retainFromStep == m < |all|
    ensures Rebuilt(all[x..]) == [Entry(Message("user", all[c].content), c)]
            + Replay(all[if m <= x then x else m..], None)
  {
    assert all[x..][c - x] == all[c] && all[x..][c - x + 1..] == all[c + 1..];
    LastCheckpointOf(all[x..], c - x);
    RebuiltByPosition(all, x);
  }

  lemma RehydratedBeyond(all: seq<RunStep>, c: nat, x: nat)
    requires Faithful(all) && c < x <= |all| && NoUsable(all[c + 1..])
    ensures Rebuilt(all[x..]) == Replay(all[x..], None)
  {
    hide Usable;
    assert all[c + 1..][x - c - 1..] == all[x..];
    NoCheckpointIff(all[x..]);
    RebuiltByPosition(all, x);
  }

  // ---- what one Run adds ----

  function Summaries(rows: seq<RunStep>): nat {
    if rows == [] then 0 else (if Usable(rows[0]) then 1 else 0) + Summaries(rows[1..])
  }

  /** The checkpoint a Run writes, if any, is its second row, and it resumes no later than where the
      Run's own rows begin. */
  lemma AddedCheckpoint(cfg: Config, sid: string, rows: seq<RunStep>, call: Call)
    requires Sound(call) && cfg.historyWindow > 0
    ensures var added := Added(cfg, sid, rows, call);
            var head := Seed(cfg, call.env, Prior(cfg, call.env, rows), call.message).drafts;
            && 1 <= |head| <= 2 && |head| <= |added|
            && added[0] == Row(sid, cfg.redact, Least(|rows|, cfg.historyWindow), Plain(User, call.message))
            && (|head| == 2 ==> added[1] == Row(sid, cfg.redact, Least(|rows|, cfg.historyWindow) + 1, head[1]))
            && NoUsable(added[|head|..])
  {
    var prior := Prior(cfg, call.env, rows);
    var head := Seed(cfg, call.env, prior, call.message).drafts;
    var added := Added(cfg, sid, rows, call);
    var ds := RunOf(cfg, rows, call).drafts;
    AddedRows(cfg, sid, rows, call);
    AddedIs(cfg, sid, rows, call);
    TraceOpens(cfg, call.env, prior, call.message);
    TraceKinds(cfg, call.env, prior, call.message);
    assert forall i | |head| <= i < |ds| :: ds[i].kind != Summary;
    assert |head| == 2 ==> ds[1] == head[1];
    hide *;
    NumberedOpens(added, sid, cfg, Least(|rows|, cfg.historyWindow), ds, |head|);
  }

  lemma NumberedOpens(added: seq<RunStep>, sid: string, cfg: Config, start: int, ds: seq<Draft>, h: nat)
    requires Numbered(added, sid, cfg, start, ds) && 1 <= h <= |ds|
    requires forall i | h <= i < |ds| :: ds[i].kind != Summary
    ensures |added| == |ds| && added[0] == Row(sid, cfg.redact, start, ds[0])
    ensures h == 2 ==> added[1] == Row(sid, cfg.redact, start + 1, ds[1])
    ensures NoUsable(added[h..])
  {
    hide ToInt32;
    assert added[0] == Row(sid, cfg.redact, start + 0, ds[0]);
    assert forall j | h <= j < |added| :: added[h..][j - h] == added[j] && added[j].kind == ds[j].kind;
  }

  /** Which step the Run's checkpoint names. */
  lemma SeedCheckpoint(cfg: Config, env: Env, rows: seq<RunStep>, message: string)
    requires env.loadOk && cfg.historyWindow > 0
    ensures var p := Seed(cfg, env, Prior(cfg, env, rows), message);
            var es := Rehydrated(rows, cfg.historyWindow);
            && (!env.buildOk || env.compactor == None ==> |p.drafts| == 1)
            && (env.buildOk && env.compactor == None ==> p.live == Msgs(es) + [Message("user", message)])
            && (env.buildOk && env.compactor.Some? ==>
                  var r := env.compactor.value(Msgs(es));
                  && (Adopted(r, |es|) ==> p.live == r.messages + [Message("user", message)])
                  && (!Adopted(r, |es|) ==> p.live == Msgs(es) + [Message("user", message)])
                  && p.drafts == [Plain(User, message)]
                                 + if Adopted(r, |es|) then CheckpointDrafts(r, StepsOf(es)) else [])
  {
    LoadedFrom(rows, cfg.historyWindow);
    hide Rehydrated, CheckpointDrafts, ToInt32;
  }

  lemma MarkerBelow(rows: seq<RunStep>, window: int, retainedFrom: int)
    requires window > 0 && Faithful(rows) && WellMarked(rows) && |rows| < TWO_31
    ensures var m := RetainFromStep(retainedFrom, StepsOf(Rehydrated(rows, window))); m.Some? ==> 0 <= m.value <= |rows|
  {
    LoadedFrom(rows, window);
    var x := Dropped(|rows|, window);
    var es := Rehydrated(rows, window);
    hide *;
    forall j | 0 <= j < |es| ensures 0 <= es[j].step < |rows| { StepsBelow(rows, x, j); }
    RetainBelow(es, |rows|, retainedFrom);
  }

  lemma RetainBelow(es: seq<Entry>, n: nat, retainedFrom: int)
    requires n < TWO_31 && forall j | 0 <= j < |es| :: 0 <= es[j].step < n
    ensures var m := RetainFromStep(retainedFrom, StepsOf(es)); m.Some? ==> 0 <= m.value <= n
  {}

  lemma MarkedConcat(rows: seq<RunStep>, added: seq<RunStep>, h: nat)
    requires WellMarked(rows) && 1 <= h <= 2 && h <= |added| && !Usable(added[0]) && NoUsable(added[h..])
    requires h == 2 && Usable(added[1]) ==> added[1].toolArgs.retainFromStep <= |rows|
    ensures WellMarked(rows + added)
  {
    hide Usable;
    assert forall j | h <= j < |added| :: added[j] == added[h..][j - h];
  }

  lemma WellMarkedKept(cfg: Config, sid: string, rows: seq<RunStep>, call: Call)
    requires Sound(call) && cfg.historyWindow > 0 && Faithful(rows) && WellMarked(rows) && |rows| < TWO_31
    ensures WellMarked(rows + Added(cfg, sid, rows, call))
  {
    var added := Added(cfg, sid, rows, call);
    AddedCheckpoint(cfg, sid, rows, call);
    var head := Seed(cfg, call.env, Prior(cfg, call.env, rows), call.message).drafts;
    SeedCheckpoint(cfg, call.env, rows, call.message);
    var es := Rehydrated(rows, cfg.historyWindow);
    if |head| == 2 && call.env.compactor.Some? {
      MarkerBelow(rows, cfg.historyWindow, call.env.compactor.value(Msgs(es)).retainedFrom);
    }
    assert |head| == 2 ==> head[1].toolArgs.Marker? && head[1].toolArgs.retainFromStep <= |rows|;
    hide Added, Seed, Rehydrated, Faithful, RetainFromStep, CheckpointDrafts, Msgs, StepsOf, Prior, WellMarked,
        NoUsable;
    MarkedConcat(rows, added, |head|);
  }

  lemma {:induction false} WellMarkedAfter(cfg: Config, sid: string, calls: seq<Call>)
    requires AllSound(calls) && cfg.historyWindow > 0
    requires Faithful(After(cfg, sid, calls)) && |After(cfg, sid, calls)| < TWO_31
    ensures WellMarked(After(cfg, sid, calls))
    decreases |calls|
  {
    hide Added, Faithful, WellMarked;
    if calls == [] {
      NothingMarked();
    } else {
      var front, call := calls[..|calls| - 1], calls[|calls| - 1];
      var rows := After(cfg, sid, front);
      var all := rows + Added(cfg, sid, rows, call);
      assert After(cfg, sid, calls) == all;
      assert all[..|rows|] == rows;
      FaithfulPrefix(all, |rows|);
      WellMarkedAfter(cfg, sid, front);
      WellMarkedKept(cfg, sid, rows, call);
    }
  }

  lemma NothingMarked()
    ensures WellMarked([])
  {}
}
