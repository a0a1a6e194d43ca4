/** pool/pool.go: what Evict, EvictIdle and Close take off the map and clean, and whose entry a Build
    gets, over whole interleavings. */
module Sweeps {
  import opened Pool

  // ---- what one step leaves alone ----

  /** Entries are never forgotten, keep their session, and their cleanups are only ever added to. */
  lemma StepGrows(s: State, t: Tid, s': State)
    requires t < |s.threads| && Next(s, t, s')
    ensures |s.ents| <= |s'.ents| && |s'.threads| == |s.threads|
    ensures forall e | 0 <= e < |s.ents| :: s'.ents[e].sid == s.ents[e].sid && s'.ents[e].cleaned >= s.ents[e].cleaned
    ensures forall u | 0 <= u < |s.threads| && u != t :: s'.threads[u] == s.threads[u]
  {
    hide Lists, Takes;
  }

  lemma StepAt(b: seq<State>, who: seq<Tid>, k: nat)
    requires Behavior(b, who) && k < |who|
    ensures k + 1 < |b| && who[k] < |b[k].threads| && Next(b[k], who[k], b[k + 1])
  {
    hide Next;
  }

  // ---- a sweep's queue ----

  /** What a sweep has taken off the map stays queued until it is cleaned. */
  lemma QueueKept(s: State, t: Tid, s': State, u: Tid, e: Eid)
    requires t < |s.threads| && u < |s.threads| && Next(s, t, s') && e < |s.ents|
    requires Queued(s.threads[u], e) || s.ents[e].cleaned >= 1
    ensures u < |s'.threads| && e < |s'.ents| && (Queued(s'.threads[u], e) || s'.ents[e].cleaned >= 1)
  {
    StepGrows(s, t, s');
    if t == u && s.ents[e].cleaned == 0 {
      var pc := s.threads[t];
      if pc.ELocked? || pc.EPending? { assert pc.es[0] == e || e in pc.es[1..]; }
    }
  }

  lemma {:induction false} QueueCleared(b: seq<State>, who: seq<Tid>, i: nat, j: nat, t: Tid, e: Eid)
    requires Behavior(b, who) && i <= j < |b| && t < |b[i].threads| && e < |b[i].ents|
    requires Queued(b[i].threads[t], e) || b[i].ents[e].cleaned >= 1
    ensures t < |b[j].threads| && e < |b[j].ents|
    ensures Queued(b[j].threads[t], e) || b[j].ents[e].cleaned >= 1
    decreases j - i
  {
    hide Next, Queued;
    if i < j {
      QueueCleared(b, who, i, j - 1, t, e);
      StepAt(b, who, j - 1);
      QueueKept(b[j - 1], who[j - 1], b[j], t, e);
    }
  }

  /** The step that takes entries off the map: those that leave it are queued, the others stay. */
  ghost predicate Took(s: State, t: Tid, s': State)
    requires t < |s.threads| == |s'.threads|
  {
    && s'.ents == s.ents && s'.threads[t].EPending?
    && (forall k | k in s'.entries :: k in s.entries && s'.entries[k] == s.entries[k])
    && (forall k | k in s.entries && k !in s'.entries :: Queued(s'.threads[t], s.entries[k]))
    && forall e: Eid | Queued(s'.threads[t], e) :: exists k :: k in s.entries && k !in s'.entries && s.entries[k] == e
  }

  /** What the three sweeps take: Close all of it, Evict the one session's entry and no other. */
  lemma SweepTakes(b: seq<State>, who: seq<Tid>, i: nat)
    requires Behavior(b, who) && i < |who| && who[i] < |b[i].threads| && b[i].threads[who[i]].EStart?
    ensures |b[i].threads| == |b[i + 1].threads| && Took(b[i], who[i], b[i + 1])
    ensures var s, s' := b[i], b[i + 1];
            match s.threads[who[i]].sweep
            case All => s'.entries == map[]
            case One(sid) => sid !in s'.entries && forall k | k in s.entries && k != sid :: k in s'.entries
            case Idle => true
  {
    StepAt(b, who, i);
    hide Behavior;
    SweepStep(b[i], who[i], b[i + 1]);
  }

  lemma SweepStep(s: State, t: Tid, s': State)
    requires t < |s.threads| && s.threads[t].EStart? && Next(s, t, s')
    ensures |s.threads| == |s'.threads| && Took(s, t, s')
    ensures match s.threads[t].sweep
            case All => s'.entries == map[]
            case One(sid) => sid !in s'.entries && forall k | k in s.entries && k != sid :: k in s'.entries
            case Idle => true
  {
    var ids, es :| Takes(s.threads[t].sweep, s.entries, ids) && Lists(es, s.entries, ids)
                   && s' == Moved(s, t, EPending(es)).(entries := s.entries - ids);
    hide Next;
    assert s'.threads[t] == EPending(es);
    assert forall k | k in s.entries :: k in s'.entries <==> k !in ids;
    forall e: Eid | e in es ensures exists k :: k in s.entries && k !in s'.entries && s.entries[k] == e {
      var k :| k in ids && s.entries[k] == e;
      assert k in s.entries;
    }
  }

  /** Once an Evict, EvictIdle or Close has returned, every entry it took off the map has been cleaned,
      exactly once: for Close every entry the pool cached, for Evict its session's. */
  lemma SweepCleans(b: seq<State>, who: seq<Tid>, i: nat, j: nat)
    requires Behavior(b, who) && i < |who| && i < j < |b| && who[i] < |b[i].threads| <= |b[j].threads|
    requires b[i].threads[who[i]].EStart? && b[j].threads[who[i]].Finished?
    ensures forall k | k in b[i].entries && k !in b[i + 1].entries ::
              b[i].entries[k] < |b[j].ents| && b[j].ents[b[i].entries[k]].cleaned == 1
    ensures b[i].threads[who[i]].sweep == All ==>
              b[i + 1].entries == map[]
              && forall k | k in b[i].entries ::
                   b[i].entries[k] < |b[j].ents| && b[j].ents[b[i].entries[k]].cleaned == 1
    ensures forall sid | b[i].threads[who[i]].sweep == One(sid) && sid in b[i].entries ::
              b[i].entries[sid] < |b[j].ents| && b[j].ents[b[i].entries[sid]].cleaned == 1
  {
    SweepTakes(b, who, i);
    Reachable(b, who, i);
    assert MapOk(b[i]);
    hide Behavior, Inv, Next;
    forall k | k in b[i].entries && k !in b[i + 1].entries
      ensures b[i].entries[k] < |b[j].ents| && b[j].ents[b[i].entries[k]].cleaned == 1
    {
      var e := b[i].entries[k];
      QueueCleared(b, who, i + 1, j, who[i], e);
      CleanedAtMostOnce(b, who, j, e);
    }
  }

  /** Everything this thread still has to clean is among these. */
  predicate Within(pc: Pc, es: set<Eid>) {
    match pc
    case EPending(q) => forall e | e in q :: e in es
    case ELocked(q) => q != [] && forall e | e in q :: e in es
    case ECleaned(q) => forall e | e in q :: e in es
    case Finished => true
    case _ => false
  }

  lemma WithinKept(s: State, t: Tid, s': State, u: Tid, es: set<Eid>)
    requires t < |s.threads| && u < |s.threads| && Next(s, t, s') && Within(s.threads[u], es)
    ensures u < |s'.threads| && Within(s'.threads[u], es)
    ensures t == u ==> forall e | 0 <= e < |s.ents| <= |s'.ents| && s'.ents[e].cleaned != s.ents[e].cleaned :: e in es
  {
    StepGrows(s, t, s');
  }

  lemma {:induction false} WithinAlways(b: seq<State>, who: seq<Tid>, i: nat, j: nat, t: Tid, es: set<Eid>)
    requires Behavior(b, who) && i <= j < |b| && t < |b[i].threads| && Within(b[i].threads[t], es)
    ensures t < |b[j].threads| && Within(b[j].threads[t], es)
    decreases j - i
  {
    hide Next, Within;
    if i < j {
      WithinAlways(b, who, i, j - 1, t, es);
      StepAt(b, who, j - 1);
      WithinKept(b[j - 1], who[j - 1], b[j], t, es);
    }
  }

  /** And nothing else: whatever a sweep cleans was in the map when it started and left it then. */
  lemma SweepCleansOnly(b: seq<State>, who: seq<Tid>, i: nat, n: nat, e: Eid)
    requires Behavior(b, who) && i < n < |who| && who[i] < |b[i].threads| && b[i].threads[who[i]].EStart?
    requires who[n] == who[i] && e < |b[n].ents| <= |b[n + 1].ents| && b[n + 1].ents[e].cleaned != b[n].ents[e].cleaned
    ensures exists k :: k in b[i].entries && k !in b[i + 1].entries && b[i].entries[k] == e
  {
    SweepTakes(b, who, i);
    StepAt(b, who, n);
    var left := set k | k in b[i].entries && k !in b[i + 1].entries :: b[i].entries[k];
    assert Within(b[i + 1].threads[who[i]], left) by {
      forall x | x in b[i + 1].threads[who[i]].es ensures x in left {
        assert Queued(b[i + 1].threads[who[i]], x);
      }
    }
    hide Behavior, Next, Within, Queued;
    WithinAlways(b, who, i + 1, n, who[i], left);
    WithinKept(b[n], who[n], b[n + 1], who[i], left);
  }

  // ---- whose entry a Build gets ----

  /** Where the Build of this session may stand, and whose entry it then has. */
  predicate OfSession(s: State, pc: Pc, sid: Sid) {
    match pc
    case BStart(x) => x == sid
    case BMiss(x) => x == sid
    case BStore(x, e) => x == sid && e < |s.ents| && s.ents[e].sid == sid
    case BLost(_, e) => e < |s.ents| && s.ents[e].sid == sid
    case BWait(e) => e < |s.ents| && s.ents[e].sid == sid
    case BLocked(e) => e < |s.ents| && s.ents[e].sid == sid
    case BSwapped(e) => e < |s.ents| && s.ents[e].sid == sid
    case BRunning(e) => e < |s.ents| && s.ents[e].sid == sid
    case Finished => true
    case _ => false
  }

  lemma OfSessionKept(s: State, t: Tid, s': State, u: Tid, sid: Sid)
    requires MapOk(s) && t < |s.threads| && u < |s.threads| && Next(s, t, s') && OfSession(s, s.threads[u], sid)
    ensures u < |s'.threads| && OfSession(s', s'.threads[u], sid)
  {
    StepGrows(s, t, s');
    hide Lists, Takes;
  }

  /** A Run only ever uses an entry built for its own session. */
  lemma {:induction false} OwnSession(b: seq<State>, who: seq<Tid>, i: nat, t: Tid, sid: Sid)
    requires Behavior(b, who) && i < |b| && t < |b[0].threads| && b[0].threads[t] == BStart(sid)
    ensures t < |b[i].threads| && OfSession(b[i], b[i].threads[t], sid)
    ensures forall e: Eid | UsedByRun(b[i].threads[t], e) :: e < |b[i].ents| && b[i].ents[e].sid == sid
    decreases i
  {
    hide Next;
    if i > 0 {
      OwnSession(b, who, i - 1, t, sid);
      StepAt(b, who, i - 1);
      Reachable(b, who, i - 1);
      assert MapOk(b[i - 1]);
      hide Inv, MapOk;
      OfSessionKept(b[i - 1], who[i - 1], b[i], t, sid);
    }
  }

  /** Checking e out, using it, or done. */
  predicate ChecksOut(pc: Pc, e: Eid) {
    pc == BWait(e) || pc == BLocked(e) || pc == BSwapped(e) || pc == BRunning(e) || pc == Finished
  }

  lemma ChecksOutKept(s: State, t: Tid, s': State, u: Tid, e: Eid)
    requires t < |s.threads| && u < |s.threads| && Next(s, t, s') && ChecksOut(s.threads[u], e)
    ensures u < |s'.threads| && ChecksOut(s'.threads[u], e)
    ensures t == u ==> |s'.ents| == |s.ents|
  {
    hide Lists, Takes;
  }

  /** A Build whose session is cached when it looks builds nothing: it waits for that entry and uses no
      other. One whose session is not cached goes to the delegate. */
  lemma {:induction false} CachedIsReused(b: seq<State>, who: seq<Tid>, i: nat, j: nat, sid: Sid)
    requires Behavior(b, who) && i < |who| && i < j < |b|
    requires who[i] < |b[i].threads| && b[i].threads[who[i]] == BStart(sid)
    ensures who[i] < |b[j].threads|
    ensures sid in b[i].entries ==> ChecksOut(b[j].threads[who[i]], b[i].entries[sid])
    ensures sid !in b[i].entries ==> b[i + 1].threads[who[i]] == BMiss(sid)
    ensures sid in b[i].entries && j < |who| && who[j] == who[i] ==> |b[j + 1].ents| == |b[j].ents|
    decreases j - i
  {
    hide Next, ChecksOut;
    if j == i + 1 {
      StepAt(b, who, i);
      LooksUp(b[i], who[i], b[i + 1], sid);
    } else {
      CachedIsReused(b, who, i, j - 1, sid);
      StepAt(b, who, j - 1);
      StepGrows(b[j - 1], who[j - 1], b[j]);
      if sid in b[i].entries { ChecksOutKept(b[j - 1], who[j - 1], b[j], who[i], b[i].entries[sid]); }
    }
    if sid in b[i].entries && j < |who| && who[j] == who[i] {
      StepAt(b, who, j);
      ChecksOutKept(b[j], who[j], b[j + 1], who[i], b[i].entries[sid]);
    }
  }

  lemma LooksUp(s: State, t: Tid, s': State, sid: Sid)
    requires t < |s.threads| && Next(s, t, s') && s.threads[t] == BStart(sid)
    ensures t < |s'.threads|
    ensures sid in s.entries ==> ChecksOut(s'.threads[t], s.entries[sid])
    ensures sid !in s.entries ==> s'.threads[t] == BMiss(sid)
  {}
}
