/** pool/pool.go and pool/context.go: one cached sandbox per session, shared by concurrent Runs,
    as atomic steps of any number of threads. Each critical section of the pool's map mutex is one
    step; an entry's own mutex is held across steps. */
module Pool {

  type Sid = string
  type Eid = nat
  type Tid = nat

  /** A built entry: its mutex, how often its real cleanup ran, and whose context and event
      callback its sandbox carries. `published` and `abandoned` are bookkeeping: the entry was put
      in the map; the entry's mutex was left locked for good by the loser of a Build race. */
  datatype Entry = Entry(sid: Sid, locked: bool, cleaned: nat, ctx: Tid, onEvent: Tid, published: bool, abandoned: bool)

  datatype Sweep = One(sid: Sid) | Idle | All

  /** Where a thread stands in the one operation it performs. */
  datatype Pc =
    | BStart(sid: Sid)              // Build: about to look the session up
    | BMiss(sid: Sid)               // Build: not cached, about to call the delegate
    | BStore(sid: Sid, e: Eid)      // Build: has built e and locked it, about to store it
    | BLost(e: Eid, winner: Eid)    // Build: lost the race, about to clean its own e
    | BWait(e: Eid)                 // checkout: about to lock e
    | BLocked(e: Eid)               // checkout: about to swap the context
    | BSwapped(e: Eid)              // checkout: about to rebind onEvent
    | BRunning(e: Eid)              // Build has returned; the Run is in flight
    | EStart(sweep: Sweep)          // Evict, EvictIdle or Close: about to take entries off the map
    | EPending(es: seq<Eid>)        // evict: about to lock the first, if any is left
    | ELocked(es: seq<Eid>)         // evict: about to run the first one's cleanup
    | ECleaned(es: seq<Eid>)        // evict: about to unlock the first
    | Finished

  datatype State = State(entries: map<Sid, Eid>, ents: seq<Entry>, threads: seq<Pc>)

  predicate Init(s: State) {
    && s.entries == map[] && s.ents == []
    && forall t | 0 <= t < |s.threads| :: s.threads[t].BStart? || s.threads[t].EStart?
  }

  /** es lists the entries of m under the given ids, each once, in any order. */
  ghost predicate Lists(es: seq<Eid>, m: map<Sid, Eid>, ids: set<Sid>) {
    && ids <= m.Keys
    && (forall i, j | 0 <= i < j < |es| :: es[i] != es[j])
    && (forall e :: e in es <==> exists k | k in ids :: m[k] == e)
  }

  /** What a sweep may take: the named session, any set of idle ones, or all. */
  predicate Takes(sweep: Sweep, m: map<Sid, Eid>, ids: set<Sid>) {
    match sweep
    case One(sid) => ids == m.Keys * {sid}
    case Idle => true
    case All => ids == m.Keys
  }

  function Moved(s: State, t: Tid, pc: Pc): State
    requires t < |s.threads|
  {
    s.(threads := s.threads[t := pc])
  }

  function With(s: State, e: Eid, x: Entry): State
    requires e < |s.ents|
  {
    s.(ents := s.ents[e := x])
  }

  /** Thread t performs its next atomic step. */
  ghost predicate Next(s: State, t: Tid, s': State)
    requires t < |s.threads|
  {
    match s.threads[t]
    case BStart(sid) =>
      s' == Moved(s, t, if sid in s.entries then BWait(s.entries[sid]) else BMiss(sid))
    case BMiss(sid) =>
      || s' == Moved(s, t, Finished)   // the delegate failed
      || s' == Moved(s, t, BStore(sid, |s.ents|)).(ents := s.ents + [Entry(sid, true, 0, t, t, false, false)])
    case BStore(sid, e) =>
      e < |s.ents| &&
      s' == (if sid in s.entries then Moved(s, t, BLost(e, s.entries[sid]))
             else With(Moved(s, t, BRunning(e)), e, s.ents[e].(published := true)).(entries := s.entries[sid := e]))
    case BLost(e, winner) =>
      e < |s.ents| &&
      s' == With(Moved(s, t, BWait(winner)), e, s.ents[e].(cleaned := s.ents[e].cleaned + 1, abandoned := true))
    case BWait(e) =>
      e < |s.ents| && !s.ents[e].locked && s' == With(Moved(s, t, BLocked(e)), e, s.ents[e].(locked := true))
    case BLocked(e) =>
      e < |s.ents| && s' == With(Moved(s, t, BSwapped(e)), e, s.ents[e].(ctx := t))
    case BSwapped(e) =>
      e < |s.ents| && s' == With(Moved(s, t, BRunning(e)), e, s.ents[e].(onEvent := t))
    case BRunning(e) =>
      e < |s.ents| && s' == With(Moved(s, t, Finished), e, s.ents[e].(locked := false))
    case EStart(sweep) =>
      exists ids, es ::
        Takes(sweep, s.entries, ids) && Lists(es, s.entries, ids)
        && s' == Moved(s, t, EPending(es)).(entries := s.entries - ids)
    case EPending(es) =>
      if es == [] then s' == Moved(s, t, Finished)
      else es[0] < |s.ents| && !s.ents[es[0]].locked
           && s' == With(Moved(s, t, ELocked(es)), es[0], s.ents[es[0]].(locked := true))
    case ELocked(es) =>
      es != [] && es[0] < |s.ents| &&
      s' == With(Moved(s, t, ECleaned(es)), es[0], s.ents[es[0]].(cleaned := s.ents[es[0]].cleaned + 1))
    case ECleaned(es) =>
      es != [] && es[0] < |s.ents| &&
      s' == With(Moved(s, t, EPending(es[1..])), es[0], s.ents[es[0]].(locked := false))
    case Finished => false
  }

  ghost predicate Behavior(b: seq<State>, who: seq<Tid>) {
    && |b| == |who| + 1 && Init(b[0])
    && forall i | 0 <= i < |who| :: who[i] < |b[i].threads| && Next(b[i], who[i], b[i + 1])
  }

  // ---- sums over threads ----

  function Sum(ts: seq<Pc>, f: Pc -> nat): nat {
    if ts == [] then 0 else f(ts[0]) + Sum(ts[1..], f)
  }

  lemma {:induction false} SumUpdate(ts: seq<Pc>, i: nat, pc: Pc, f: Pc -> nat)
    requires i < |ts|
    ensures Sum(ts[i := pc], f) + f(ts[i]) == Sum(ts, f) + f(pc)
  {
    if i == 0 {
      assert ts[0 := pc][1..] == ts[1..];
    } else {
      assert ts[i := pc][1..] == ts[1..][i - 1 := pc];
      SumUpdate(ts[1..], i - 1, pc, f);
    }
  }

  lemma {:induction false} SumAtLeast(ts: seq<Pc>, i: nat, f: Pc -> nat)
    requires i < |ts|
    ensures Sum(ts, f) >= f(ts[i])
  {
    if i > 0 { SumAtLeast(ts[1..], i - 1, f); }
  }

  lemma {:induction false} SumTwo(ts: seq<Pc>, i: nat, j: nat, f: Pc -> nat)
    requires i < j < |ts|
    ensures Sum(ts, f) >= f(ts[i]) + f(ts[j])
  {
    if i == 0 { SumAtLeast(ts[1..], j - 1, f); } else { SumTwo(ts[1..], i - 1, j - 1, f); }
  }

  lemma {:induction false} SumPositive(ts: seq<Pc>, f: Pc -> nat) returns (i: nat)
    requires Sum(ts, f) > 0
    ensures i < |ts| && f(ts[i]) > 0
  {
    if f(ts[0]) > 0 {
      i := 0;
    } else {
      i := SumPositive(ts[1..], f);
      i := i + 1;
    }
  }

  lemma {:induction false} SumZero(ts: seq<Pc>, f: Pc -> nat)
    requires forall i | 0 <= i < |ts| :: f(ts[i]) == 0
    ensures Sum(ts, f) == 0
  {
    if ts != [] { SumZero(ts[1..], f); }
  }

  // ---- the two conservation laws ----

  /** How much of e's cleanup duty rests with a thread at pc: to store or discard it as its builder,
      or to clean it as an evictor that has taken it off the map. */
  function Duty(pc: Pc, e: Eid): nat {
    match pc
    case BStore(_, b) => if b == e then 1 else 0
    case BLost(b, _) => if b == e then 1 else 0
    case EPending(es) => multiset(es)[e]
    case ELocked(es) => multiset(es)[e]
    case ECleaned(es) => if es == [] then 0 else multiset(es[1..])[e]
    case _ => 0
  }

  function DutyOf(e: Eid): Pc -> nat { (pc: Pc) => Duty(pc, e) }

  /** Whether a thread at pc holds e's mutex. */
  function Hold(pc: Pc, e: Eid): nat {
    match pc
    case BStore(_, b) => if b == e then 1 else 0
    case BLost(b, _) => if b == e then 1 else 0
    case BLocked(b) => if b == e then 1 else 0
    case BSwapped(b) => if b == e then 1 else 0
    case BRunning(b) => if b == e then 1 else 0
    case ELocked(es) => if es != [] && es[0] == e then 1 else 0
    case ECleaned(es) => if es != [] && es[0] == e then 1 else 0
    case _ => 0
  }

  function HoldOf(e: Eid): Pc -> nat { (pc: Pc) => Hold(pc, e) }

  function InMap(s: State, e: Eid): nat
    requires e < |s.ents|
  {
    var sid := s.ents[e].sid;
    if sid in s.entries && s.entries[sid] == e then 1 else 0
  }

  /** An entry is in the map, owed a cleanup by exactly one thread, or cleaned exactly once. */
  ghost predicate Conserved(s: State, e: Eid)
    requires e < |s.ents|
  {
    InMap(s, e) + Sum(s.threads, DutyOf(e)) + s.ents[e].cleaned == 1
  }

  /** An entry's mutex is locked by exactly one thread, or abandoned, or free. */
  ghost predicate LockLaw(s: State, e: Eid)
    requires e < |s.ents|
  {
    Sum(s.threads, HoldOf(e)) + (if s.ents[e].abandoned then 1 else 0) == if s.ents[e].locked then 1 else 0
  }

  /** The entries a thread may still wait for, and the ones it has to itself. */
  predicate Refers(pc: Pc, e: Eid) {
    match pc
    case BLost(_, w) => w == e
    case BWait(w) => w == e
    case BLocked(w) => w == e
    case BSwapped(w) => w == e
    case BRunning(w) => w == e
    case EPending(es) => e in es
    case ELocked(es) => e in es
    case ECleaned(es) => e in es
    case _ => false
  }

  predicate Private(pc: Pc, e: Eid) {
    match pc
    case BStore(_, b) => b == e
    case BLost(b, _) => b == e
    case _ => false
  }

  ghost predicate PcOk(s: State, t: Tid)
    requires t < |s.threads|
  {
    var pc := s.threads[t];
    && (forall e: Eid | Refers(pc, e) :: e < |s.ents| && s.ents[e].published)
    && (forall e: Eid | Private(pc, e) :: e < |s.ents| && !s.ents[e].published && !s.ents[e].abandoned)
    && (pc.BStore? ==>
          pc.e < |s.ents| && s.ents[pc.e].sid == pc.sid && s.ents[pc.e].ctx == t && s.ents[pc.e].onEvent == t)
    && (pc.BSwapped? ==> pc.e < |s.ents| && s.ents[pc.e].ctx == t)
    && (pc.BRunning? ==> pc.e < |s.ents| && s.ents[pc.e].ctx == t && s.ents[pc.e].onEvent == t)
    && (pc.ELocked? || pc.ECleaned? ==> pc.es != [])
  }

  ghost predicate MapOk(s: State) {
    forall sid | sid in s.entries ::
      s.entries[sid] < |s.ents| && s.ents[s.entries[sid]].sid == sid && s.ents[s.entries[sid]].published
  }

  ghost predicate Inv(s: State) {
    && MapOk(s)
    && (forall t | 0 <= t < |s.threads| :: PcOk(s, t))
    && (forall e | 0 <= e < |s.ents| :: Conserved(s, e))
    && (forall e | 0 <= e < |s.ents| :: LockLaw(s, e))
    && AbandonedOk(s)
  }

  lemma InitInv(s: State)
    requires Init(s)
    ensures Inv(s)
  {}

  // ---- every step keeps the invariant ----

  /** At most one thread holds an entry. */
  lemma Exclusive(s: State, t: Tid, u: Tid, e: Eid)
    requires e < |s.ents| && LockLaw(s, e) && t < |s.threads| && u < |s.threads| && t != u
    requires Hold(s.threads[t], e) > 0
    ensures Hold(s.threads[u], e) == 0
  {
    if t < u { SumTwo(s.threads, t, u, HoldOf(e)); } else { SumTwo(s.threads, u, t, HoldOf(e)); }
  }

  lemma {:induction false} OccursOnce(es: seq<Eid>, e: Eid)
    requires forall i, j | 0 <= i < j < |es| :: es[i] != es[j]
    ensures multiset(es)[e] == if e in es then 1 else 0
  {
    if es != [] {
      assert es == [es[0]] + es[1..];
      OccursOnce(es[1..], e);
      assert multiset(es) == multiset{es[0]} + multiset(es[1..]);
    }
  }

  lemma HeadAndTail(es: seq<Eid>, e: Eid)
    requires es != []
    ensures multiset(es)[e] == (if es[0] == e then 1 else 0) + multiset(es[1..])[e]
    ensures e in es <==> es[0] == e || e in es[1..]
  {
    assert es == [es[0]] + es[1..];
    assert multiset(es) == multiset{es[0]} + multiset(es[1..]);
  }

  /** A thread newly started on a fresh entry is the only one with a stake in it. */
  lemma FreshEntry(s: State, e: Eid)
    requires Inv(s) && e == |s.ents|
    ensures Sum(s.threads, DutyOf(e)) == 0 && Sum(s.threads, HoldOf(e)) == 0
  {
    forall i | 0 <= i < |s.threads| ensures Duty(s.threads[i], e) == 0 && Hold(s.threads[i], e) == 0 {
      assert PcOk(s, i);
      var pc := s.threads[i];
      assert !Refers(pc, e) && !Private(pc, e);
      if pc.ECleaned? && pc.es != [] { HeadAndTail(pc.es, e); }
    }
    SumZero(s.threads, DutyOf(e));
    SumZero(s.threads, HoldOf(e));
  }

  /** Taking entries off the map hands exactly those to the sweep. */
  lemma TakenOffMap(s: State, ids: set<Sid>, es: seq<Eid>, s': State, e: Eid)
    requires MapOk(s) && Lists(es, s.entries, ids) && e < |s.ents|
    requires s'.ents == s.ents && s'.entries == s.entries - ids
    ensures InMap(s', e) + (if e in es then 1 else 0) == InMap(s, e)
  {
    var sid := s.ents[e].sid;
    if e in es {
      var k :| k in ids && s.entries[k] == e;
      assert k == sid;
    }
  }

  lemma KeepsConserved(s: State, t: Tid, s': State, e: Eid)
    requires Inv(s) && t < |s.threads| && Next(s, t, s') && e < |s'.ents|
    ensures Conserved(s', e)
  {
    assert PcOk(s, t);
    var pc, pc' := s.threads[t], s'.threads[t];
    assert s'.threads == s.threads[t := pc'];
    SumUpdate(s.threads, t, pc', DutyOf(e));
    hide Sum, LockLaw;
    if e >= |s.ents| {
      hide Conserved, PcOk;
      FreshEntry(s, |s.ents|);
      FreshStep(s, t, s');
      hide Inv, Next;
    } else {
      assert Conserved(s, e);
      DutyStep(s, t, s', e);
      hide Inv, Next, Duty, InMap, PcOk, MapOk;
    }
  }

  /** Building adds one entry, whose builder holds it and owes its cleanup. */
  lemma FreshStep(s: State, t: Tid, s': State)
    requires MapOk(s) && t < |s.threads| && Next(s, t, s') && |s'.ents| > |s.ents|
    ensures var e := |s.ents|;
            && |s'.ents| == e + 1 && InMap(s', e) == 0 && s'.ents[e].cleaned == 0
            && s'.ents[e].locked && !s'.ents[e].abandoned
            && Duty(s.threads[t], e) == 0 == Hold(s.threads[t], e)
            && Duty(s'.threads[t], e) == 1 == Hold(s'.threads[t], e)
  {}

  /** What a step adds to the map and to the cleanups of e, the stepping thread's duty loses. */
  lemma DutyStep(s: State, t: Tid, s': State, e: Eid)
    requires MapOk(s) && t < |s.threads| && PcOk(s, t) && Next(s, t, s') && e < |s.ents|
    ensures e < |s'.ents|
    ensures InMap(s', e) + Duty(s'.threads[t], e) + s'.ents[e].cleaned
            == InMap(s, e) + Duty(s.threads[t], e) + s.ents[e].cleaned
  {
    if s.threads[t].EStart? {
      DutySweep(s, t, s', e);
    } else if s.threads[t].BStore? {
      DutyStore(s, t, s', e);
    } else if s.threads[t].EPending? || s.threads[t].ELocked? || s.threads[t].ECleaned? {
      DutyEvict(s, t, s', e);
    } else {
      DutyElsewhere(s, t, s', e);
    }
  }

  lemma DutySweep(s: State, t: Tid, s': State, e: Eid)
    requires MapOk(s) && t < |s.threads| && s.threads[t].EStart? && Next(s, t, s') && e < |s.ents|
    ensures e < |s'.ents| && s'.ents[e].cleaned == s.ents[e].cleaned
    ensures InMap(s', e) + Duty(s'.threads[t], e) == InMap(s, e)
  {
    var ids, es :| Takes(s.threads[t].sweep, s.entries, ids) && Lists(es, s.entries, ids)
                   && s' == Moved(s, t, EPending(es)).(entries := s.entries - ids);
    hide Next;
    ListedOnce(es, s.entries, ids, e);
    TakenOffMap(s, ids, es, s', e);
  }

  lemma DutyStore(s: State, t: Tid, s': State, e: Eid)
    requires MapOk(s) && t < |s.threads| && s.threads[t].BStore? && PcOk(s, t) && Next(s, t, s') && e < |s.ents|
    ensures e < |s'.ents| && s'.ents[e].cleaned == s.ents[e].cleaned
    ensures InMap(s', e) + Duty(s'.threads[t], e) == InMap(s, e) + Duty(s.threads[t], e)
  {
    BuilderOwns(s, t);
    hide PcOk;
  }

  lemma DutyEvict(s: State, t: Tid, s': State, e: Eid)
    requires t < |s.threads| && Next(s, t, s') && e < |s.ents|
    requires s.threads[t].EPending? || s.threads[t].ELocked? || s.threads[t].ECleaned?
    ensures e < |s'.ents| && InMap(s', e) == InMap(s, e)
    ensures Duty(s'.threads[t], e) + s'.ents[e].cleaned == Duty(s.threads[t], e) + s.ents[e].cleaned
  {
    if s.threads[t].ELocked? { HeadAndTail(s.threads[t].es, e); }
  }

  lemma DutyElsewhere(s: State, t: Tid, s': State, e: Eid)
    requires t < |s.threads| && Next(s, t, s') && e < |s.ents|
    requires var pc := s.threads[t];
             pc.BStart? || pc.BMiss? || pc.BLost? || pc.BWait? || pc.BLocked? || pc.BSwapped? || pc.BRunning?
    ensures e < |s'.ents| && InMap(s', e) == InMap(s, e)
    ensures Duty(s'.threads[t], e) + s'.ents[e].cleaned == Duty(s.threads[t], e) + s.ents[e].cleaned
  {}

  lemma ListedOnce(es: seq<Eid>, m: map<Sid, Eid>, ids: set<Sid>, e: Eid)
    requires Lists(es, m, ids)
    ensures multiset(es)[e] == if e in es then 1 else 0
  {
    OccursOnce(es, e);
  }

  lemma BuilderOwns(s: State, t: Tid)
    requires t < |s.threads| && PcOk(s, t) && s.threads[t].BStore?
    ensures var e := s.threads[t].e; e < |s.ents| && s.ents[e].sid == s.threads[t].sid && !s.ents[e].abandoned
  {
    assert Private(s.threads[t], s.threads[t].e);
  }

  lemma KeepsLockLaw(s: State, t: Tid, s': State, e: Eid)
    requires Inv(s) && t < |s.threads| && Next(s, t, s') && e < |s'.ents|
    ensures LockLaw(s', e)
  {
    assert PcOk(s, t);
    var pc, pc' := s.threads[t], s'.threads[t];
    assert s'.threads == s.threads[t := pc'];
    SumUpdate(s.threads, t, pc', HoldOf(e));
    SumAtLeast(s.threads, t, HoldOf(e));
    hide Sum, Conserved;
    if e >= |s.ents| {
      FreshEntry(s, |s.ents|);
      FreshStep(s, t, s');
      hide Inv, Next, PcOk;
    } else {
      assert LockLaw(s, e);
      LockStep(s, t, s', e);
      hide Inv, Next, Hold, PcOk;
    }
  }

  /** Locking, unlocking and abandoning, as the stepping thread's hold and the entry's flags see them. */
  lemma LockStep(s: State, t: Tid, s': State, e: Eid)
    requires t < |s.threads| && PcOk(s, t) && Next(s, t, s') && e < |s.ents|
    ensures e < |s'.ents|
    ensures var pc, pc', x, x' := s.threads[t], s'.threads[t], s.ents[e], s'.ents[e];
            || (Hold(pc', e) == Hold(pc, e) && x'.locked == x.locked && x'.abandoned == x.abandoned)
            || (Hold(pc, e) == 0 && Hold(pc', e) == 1 && !x.locked && x'.locked && x'.abandoned == x.abandoned)
            || (Hold(pc, e) == 1 && Hold(pc', e) == 0 && !x'.locked && x'.abandoned == x.abandoned)
            || (Hold(pc, e) == 1 && Hold(pc', e) == 0 && !x.abandoned && x'.abandoned && x'.locked == x.locked)
  {
    if s.threads[t].BLost? { assert Private(s.threads[t], s.threads[t].e); }
    hide PcOk, Refers, Private, Takes, Lists;
    if s.threads[t].EStart? {
      assert s'.ents == s.ents && s'.threads[t].EPending?;
      hide Next;
    }
  }

  lemma InvParts(s: State, t: Tid)
    requires Inv(s) && t < |s.threads|
    ensures PcOk(s, t) && MapOk(s) && AbandonedOk(s)
  {
    hide PcOk, MapOk, Conserved, LockLaw;
  }

  /** The map only ever names published entries, each under its own session. */
  lemma KeepsMapOk(s: State, t: Tid, s': State)
    requires Inv(s) && t < |s.threads| && Next(s, t, s')
    ensures MapOk(s') && AbandonedOk(s')
  {
    hide *;
    InvParts(s, t);
    if s.threads[t].EStart? {
      MapOkSweep(s, t, s');
    } else if s.threads[t].BStore? || s.threads[t].BLost? {
      MapOkBuilder(s, t, s');
    } else {
      MapOkElsewhere(s, t, s');
    }
  }

  ghost predicate AbandonedOk(s: State) {
    forall e | 0 <= e < |s.ents| && s.ents[e].abandoned :: !s.ents[e].published
  }

  lemma MapOkSweep(s: State, t: Tid, s': State)
    requires MapOk(s) && AbandonedOk(s) && t < |s.threads| && Next(s, t, s') && s.threads[t].EStart?
    ensures MapOk(s') && AbandonedOk(s')
  {
    hide MapOk, Lists, Takes;
    assert s'.ents == s.ents && forall sid | sid in s'.entries :: sid in s.entries && s'.entries[sid] == s.entries[sid];
    hide Next;
    FewerOk(s, s');
  }

  lemma FewerOk(s: State, s': State)
    requires MapOk(s) && s'.ents == s.ents
    requires forall sid | sid in s'.entries :: sid in s.entries && s'.entries[sid] == s.entries[sid]
    ensures MapOk(s')
  {}

  lemma MapOkBuilder(s: State, t: Tid, s': State)
    requires MapOk(s) && AbandonedOk(s) && t < |s.threads| && PcOk(s, t) && Next(s, t, s')
    requires s.threads[t].BStore? || s.threads[t].BLost?
    ensures MapOk(s') && AbandonedOk(s')
  {
    assert Private(s.threads[t], s.threads[t].e);
    hide Private, Refers;
  }

  lemma MapOkElsewhere(s: State, t: Tid, s': State)
    requires MapOk(s) && AbandonedOk(s) && t < |s.threads| && Next(s, t, s')
    requires !s.threads[t].EStart? && !s.threads[t].BStore? && !s.threads[t].BLost?
    ensures MapOk(s') && AbandonedOk(s')
  {
    hide *;
    if s.threads[t].BMiss? { FlagsMiss(s, t, s'); } else { FlagsKept(s, t, s'); }
    AsBeforeOk(s, s');
  }

  /** The map is as before, and so are the entries there were, as far as it matters to the map. */
  ghost predicate FlagsAsBefore(s: State, s': State) {
    && s'.entries == s.entries && |s.ents| <= |s'.ents|
    && (forall e | 0 <= e < |s.ents| ::
          var x, x' := s.ents[e], s'.ents[e];
          x'.sid == x.sid && x'.published == x.published && x'.abandoned == x.abandoned)
    && (forall e | |s.ents| <= e < |s'.ents| :: !s'.ents[e].abandoned)
  }

  lemma FlagsMiss(s: State, t: Tid, s': State)
    requires t < |s.threads| && Next(s, t, s') && s.threads[t].BMiss?
    ensures FlagsAsBefore(s, s')
  {}

  lemma FlagsKept(s: State, t: Tid, s': State)
    requires t < |s.threads| && Next(s, t, s')
    requires var pc := s.threads[t]; !pc.EStart? && !pc.BStore? && !pc.BLost? && !pc.BMiss?
    ensures FlagsAsBefore(s, s')
  {
    hide Lists, Takes, FlagsAsBefore;
    var e: nat, x := ChangedEntry(s, t, s');
    hide Next;
    FlagsOfOne(s, s', e, x);
  }

  /** Such a step changes one entry at most, and not what the map goes by. */
  lemma ChangedEntry(s: State, t: Tid, s': State) returns (e: nat, x: Entry)
    requires t < |s.threads| && Next(s, t, s')
    requires var pc := s.threads[t]; !pc.EStart? && !pc.BStore? && !pc.BLost? && !pc.BMiss?
    ensures s'.entries == s.entries
    ensures s'.ents == s.ents ||
            (e < |s.ents| && s'.ents == s.ents[e := x]
             && x.sid == s.ents[e].sid && x.published == s.ents[e].published && x.abandoned == s.ents[e].abandoned)
  {
    e := ActsOn(s.threads[t]);
    x := if e < |s'.ents| then s'.ents[e] else Entry("", false, 0, 0, 0, false, false);
  }

  /** The entry a thread at pc is about to change, where it changes one. */
  function ActsOn(pc: Pc): Eid {
    match pc
    case BWait(e) => e
    case BLocked(e) => e
    case BSwapped(e) => e
    case BRunning(e) => e
    case EPending(es) => if es == [] then 0 else es[0]
    case ELocked(es) => if es == [] then 0 else es[0]
    case ECleaned(es) => if es == [] then 0 else es[0]
    case _ => 0
  }

  lemma FlagsOfOne(s: State, s': State, e: nat, x: Entry)
    requires s'.entries == s.entries
    requires s'.ents == s.ents ||
             (e < |s.ents| && s'.ents == s.ents[e := x]
              && x.sid == s.ents[e].sid && x.published == s.ents[e].published && x.abandoned == s.ents[e].abandoned)
    ensures FlagsAsBefore(s, s')
  {}

  lemma AsBeforeOk(s: State, s': State)
    requires MapOk(s) && AbandonedOk(s) && FlagsAsBefore(s, s')
    ensures MapOk(s') && AbandonedOk(s')
  {}

  /** The thread that steps ends up somewhere legitimate... */
  lemma KeepsMoverOk(s: State, t: Tid, s': State)
    requires Inv(s) && t < |s.threads| && Next(s, t, s')
    ensures PcOk(s', t)
  {
    var pc := s.threads[t];
    if pc.EPending? || pc.ELocked? || pc.ECleaned? {
      KeepsEvictorOk(s, t, s');
    } else if pc.EStart? {
      KeepsSweeperOk(s, t, s');
    } else {
      KeepsBuilderOk(s, t, s');
    }
  }

  lemma KeepsBuilderOk(s: State, t: Tid, s': State)
    requires Inv(s) && t < |s.threads| && Next(s, t, s')
    requires var pc := s.threads[t]; !pc.EPending? && !pc.ELocked? && !pc.ECleaned? && !pc.EStart?
    ensures PcOk(s', t)
  {
    assert PcOk(s, t);
    hide Conserved, LockLaw;
    match s.threads[t]
    case BStart(sid) => assert sid in s.entries ==> s.ents[s.entries[sid]].published;
    case BMiss(_) =>
    case BStore(_, b) => assert Private(s.threads[t], b);
    case BLost(b, w) => assert Private(s.threads[t], b); assert Refers(s.threads[t], w);
    case BWait(b) => assert Refers(s.threads[t], b);
    case BLocked(b) => assert Refers(s.threads[t], b);
    case BSwapped(b) => assert Refers(s.threads[t], b);
    case BRunning(_) =>
  }

  lemma KeepsSweeperOk(s: State, t: Tid, s': State)
    requires MapOk(s) && t < |s.threads| && Next(s, t, s') && s.threads[t].EStart?
    ensures PcOk(s', t)
  {
    var ids, es :| Takes(s.threads[t].sweep, s.entries, ids) && Lists(es, s.entries, ids)
                   && s' == Moved(s, t, EPending(es)).(entries := s.entries - ids);
    hide Next;
    forall e | e in es ensures e < |s.ents| && s.ents[e].published {
      var k :| k in ids && s.entries[k] == e;
    }
  }

  lemma KeepsEvictorOk(s: State, t: Tid, s': State)
    requires t < |s.threads| && PcOk(s, t) && Next(s, t, s')
    requires s.threads[t].EPending? || s.threads[t].ELocked? || s.threads[t].ECleaned?
    ensures PcOk(s', t)
  {
    var es := s.threads[t].es;
    QueuePublished(s, t, es);
    assert es != [] ==> es[0] in es;
    forall e: Eid | Refers(s'.threads[t], e) ensures e < |s'.ents| && s'.ents[e].published {
      assert e in es;
    }
  }

  lemma QueuePublished(s: State, t: Tid, es: seq<Eid>)
    requires t < |s.threads| && PcOk(s, t)
    requires var pc := s.threads[t]; pc == EPending(es) || pc == ELocked(es) || pc == ECleaned(es)
    ensures forall e | e in es :: e < |s.ents| && s.ents[e].published
  {
    forall e | e in es ensures e < |s.ents| && s.ents[e].published {
      assert Refers(s.threads[t], e);
    }
  }

  /** ...and the step leaves what every other thread relies on alone. */
  lemma KeepsOthersOk(s: State, t: Tid, s': State, u: Tid)
    requires Inv(s) && t < |s.threads| && u < |s.threads| && u != t && Next(s, t, s')
    ensures PcOk(s', u)
  {
    assert PcOk(s, t) && PcOk(s, u);
    StepTouches(s, t, s');
    var pc := s.threads[u];
    assert s'.threads[u] == pc;
    forall e: Eid | e < |s.ents| && Hold(pc, e) > 0 ensures s'.ents[e] == s.ents[e] {
      Untouched(s, t, s', u, e);
    }
    forall e: Eid | Private(pc, e) ensures e < |s'.ents| && s'.ents[e] == s.ents[e] {}
    if pc.BSwapped? || pc.BRunning? { assert Refers(pc, pc.e); }
    if pc.BStore? { assert Private(pc, pc.e); }
    hide Conserved, LockLaw, Lists, Next;
  }

  /** How entries change in one step: only the one the stepping thread holds or is just locking,
      and an entry once published stays so. */
  lemma StepTouches(s: State, t: Tid, s': State)
    requires Inv(s) && t < |s.threads| && Next(s, t, s')
    ensures |s.ents| <= |s'.ents| && |s'.threads| == |s.threads|
    ensures forall u | 0 <= u < |s.threads| && u != t :: s'.threads[u] == s.threads[u]
    ensures forall e | 0 <= e < |s.ents| ::
              && (s.ents[e].published ==> s'.ents[e].published)
              && (s'.ents[e] != s.ents[e] ==>
                    Hold(s.threads[t], e) > 0 || (!s.ents[e].locked && Hold(s'.threads[t], e) > 0))
  {
    assert PcOk(s, t);
    hide Conserved, LockLaw, Lists, Refers, Private;
  }

  lemma Untouched(s: State, t: Tid, s': State, u: Tid, e: Eid)
    requires Inv(s) && t < |s.threads| && u < |s.threads| && u != t && Next(s, t, s')
    requires e < |s.ents| && Hold(s.threads[u], e) > 0
    ensures s'.ents[e] == s.ents[e]
  {
    assert LockLaw(s, e);
    StepTouches(s, t, s');
    Exclusive(s, u, t, e);
    SumAtLeast(s.threads, u, HoldOf(e));
    hide Next, Conserved, PcOk;
  }

  lemma NextKeepsInv(s: State, t: Tid, s': State)
    requires Inv(s) && t < |s.threads| && Next(s, t, s')
    ensures Inv(s')
  {
    KeepsMapOk(s, t, s');
    StepTouches(s, t, s');
    forall u | 0 <= u < |s'.threads| ensures PcOk(s', u) {
      if u == t { KeepsMoverOk(s, t, s'); } else { KeepsOthersOk(s, t, s', u); }
    }
    forall e | 0 <= e < |s'.ents| ensures Conserved(s', e) && LockLaw(s', e) {
      KeepsConserved(s, t, s', e);
      KeepsLockLaw(s, t, s', e);
    }
    hide Next, Conserved, LockLaw, PcOk, MapOk;
  }

  /** Every state of every interleaving satisfies the invariant. */
  lemma {:induction false} Reachable(b: seq<State>, who: seq<Tid>, i: nat)
    requires Behavior(b, who) && i < |b|
    ensures Inv(b[i]) && |b[i].threads| == |b[0].threads|
  {
    if i == 0 {
      InitInv(b[0]);
    } else {
      Reachable(b, who, i - 1);
      NextKeepsInv(b[i - 1], who[i - 1], b[i]);
      StepTouches(b[i - 1], who[i - 1], b[i]);
      hide Next, Inv;
    }
  }

  // ---- conservation ----

  /** Each entry ever built is cleaned at most once; an entry in the map is not cleaned, and a
      session's entry is its own. */
  lemma CleanedAtMostOnce(b: seq<State>, who: seq<Tid>, i: nat, e: Eid)
    requires Behavior(b, who) && i < |b| && e < |b[i].ents|
    ensures b[i].ents[e].cleaned <= 1
    ensures (exists sid :: sid in b[i].entries && b[i].entries[sid] == e) ==> b[i].ents[e].cleaned == 0
  {
    Reachable(b, who, i);
    assert Conserved(b[i], e);
    hide Behavior, Next, Sum;
  }

  /** Once every thread is finished, every entry ever built, race losers included, is either still
      cached under its session or has been cleaned exactly once. */
  lemma NothingLeaks(b: seq<State>, who: seq<Tid>, i: nat, e: Eid)
    requires Behavior(b, who) && i < |b| && e < |b[i].ents|
    requires forall t | 0 <= t < |b[i].threads| :: b[i].threads[t].Finished?
    ensures var s := b[i];
            var cached := s.ents[e].sid in s.entries && s.entries[s.ents[e].sid] == e;
            s.ents[e].cleaned == if cached then 0 else 1
  {
    Reachable(b, who, i);
    assert Conserved(b[i], e);
    SumZero(b[i].threads, DutyOf(e));
    hide Behavior, Next, Sum;
  }

  // ---- exclusion ----

  predicate UsedByRun(pc: Pc, e: Eid) { pc.BRunning? && pc.e == e }

  /** At most one thread uses an entry: two Runs for one session never overlap, and nobody who
      is cleaning an entry does so while a Run has it. */
  lemma MutualExclusion(b: seq<State>, who: seq<Tid>, i: nat, t: Tid, u: Tid, e: Eid)
    requires Behavior(b, who) && i < |b| && t < |b[i].threads| && u < |b[i].threads| && t != u
    requires UsedByRun(b[i].threads[t], e)
    ensures e < |b[i].ents| && Hold(b[i].threads[u], e) == 0
  {
    Reachable(b, who, i);
    assert PcOk(b[i], t);
    assert LockLaw(b[i], e);
    Exclusive(b[i], t, u, e);
    hide Behavior, Next, Sum;
  }

  /** A step that runs an entry's cleanup is never taken while a Run has that entry, by any thread. */
  lemma CleanupNeverDuringRun(b: seq<State>, who: seq<Tid>, i: nat, t: Tid, e: Eid)
    requires Behavior(b, who) && i < |who| && t < |b[i].threads| && e < |b[i].ents|
    requires b[i + 1].ents[e].cleaned != b[i].ents[e].cleaned
    ensures !UsedByRun(b[i].threads[t], e) && !UsedByRun(b[i + 1].threads[t], e)
  {
    Reachable(b, who, i);
    StepCleans(b[i], who[i], b[i + 1], e);
    StepTouches(b[i], who[i], b[i + 1]);
    assert LockLaw(b[i], e);
    if t != who[i] { Exclusive(b[i], who[i], t, e); }
    hide Behavior, Next, Sum, Inv;
  }

  lemma StepCleans(s: State, t: Tid, s': State, e: Eid)
    requires t < |s.threads| && Next(s, t, s') && e < |s.ents| <= |s'.ents|
    requires s'.ents[e].cleaned != s.ents[e].cleaned
    ensures Hold(s.threads[t], e) > 0 && !s.threads[t].BRunning? && !s'.threads[t].BRunning?
  {
    hide Lists;
  }

  /** While a Run has an entry, the sandbox answers to that Run's context and callback. */
  lemma RunSeesItsOwnContext(b: seq<State>, who: seq<Tid>, i: nat, t: Tid, e: Eid)
    requires Behavior(b, who) && i < |b| && t < |b[i].threads| && UsedByRun(b[i].threads[t], e)
    ensures e < |b[i].ents| && b[i].ents[e].ctx == t && b[i].ents[e].onEvent == t
  {
    Reachable(b, who, i);
    assert PcOk(b[i], t);
    hide Behavior, Next;
  }

  // ---- what a checkout can get ----

  /** Whether an evictor has e in its queue, still to be cleaned. */
  predicate Queued(pc: Pc, e: Eid) {
    ((pc.EPending? || pc.ELocked?) && e in pc.es) || (pc.ECleaned? && pc.es != [] && e in pc.es[1..])
  }

  /** A Run that checks an entry out gets it uncleaned exactly when it is still in the map or an
      evictor that took it off is still waiting its turn. */
  lemma CheckoutFreshIff(b: seq<State>, who: seq<Tid>, i: nat)
    requires Behavior(b, who) && i < |who| && b[i].threads[who[i]].BWait?
    ensures var s, e := b[i], b[i].threads[who[i]].e;
            && e < |s.ents|
            && (s.ents[e].cleaned == 0 <==>
                  (s.ents[e].sid in s.entries && s.entries[s.ents[e].sid] == e)
                  || exists u | 0 <= u < |s.threads| :: Queued(s.threads[u], e))
  {
    Reachable(b, who, i);
    var s, e := b[i], b[i].threads[who[i]].e;
    assert PcOk(s, who[i]);
    assert Refers(s.threads[who[i]], e);
    assert Conserved(s, e);
    hide Behavior, Next, Sum;
    DutyMeansQueued(s, e);
  }

  lemma DutyMeansQueued(s: State, e: Eid)
    requires Inv(s) && e < |s.ents| && s.ents[e].published
    ensures Sum(s.threads, DutyOf(e)) > 0 <==> exists u | 0 <= u < |s.threads| :: Queued(s.threads[u], e)
  {
    forall u | 0 <= u < |s.threads| ensures Duty(s.threads[u], e) > 0 <==> Queued(s.threads[u], e) {
      assert PcOk(s, u);
      assert !Private(s.threads[u], e);
    }
    if Sum(s.threads, DutyOf(e)) > 0 {
      var u := SumPositive(s.threads, DutyOf(e));
      assert Queued(s.threads[u], e);
    }
    if u :| 0 <= u < |s.threads| && Queued(s.threads[u], e) {
      SumAtLeast(s.threads, u, DutyOf(e));
    }
    hide Inv, Sum;
  }

  /** A schedule of two Builds and an Evict for one session: the first Run builds and finishes; the
      second Build looks the entry up; the eviction runs from start to end; the second Build goes on. */
  function StaleState(i: nat): State
    requires i <= 12
  {
    var cached := map["s" := 0];
    match i
    case 0 => State(map[], [], [BStart("s"), BStart("s"), EStart(One("s"))])
    case 1 => State(map[], [], [BMiss("s"), BStart("s"), EStart(One("s"))])
    case 2 => State(map[], [Entry("s", true, 0, 0, 0, false, false)], [BStore("s", 0), BStart("s"), EStart(One("s"))])
    case 3 => State(cached, [Entry("s", true, 0, 0, 0, true, false)], [BRunning(0), BStart("s"), EStart(One("s"))])
    case 4 => State(cached, [Entry("s", false, 0, 0, 0, true, false)], [Finished, BStart("s"), EStart(One("s"))])
    case 5 => State(cached, [Entry("s", false, 0, 0, 0, true, false)], [Finished, BWait(0), EStart(One("s"))])
    case 6 => State(map[], [Entry("s", false, 0, 0, 0, true, false)], [Finished, BWait(0), EPending([0])])
    case 7 => State(map[], [Entry("s", true, 0, 0, 0, true, false)], [Finished, BWait(0), ELocked([0])])
    case 8 => State(map[], [Entry("s", true, 1, 0, 0, true, false)], [Finished, BWait(0), ECleaned([0])])
    case 9 => State(map[], [Entry("s", false, 1, 0, 0, true, false)], [Finished, BWait(0), EPending([])])
    case 10 => State(map[], [Entry("s", true, 1, 0, 0, true, false)], [Finished, BLocked(0), EPending([])])
    case 11 => State(map[], [Entry("s", true, 1, 1, 0, true, false)], [Finished, BSwapped(0), EPending([])])
    case 12 => State(map[], [Entry("s", true, 1, 1, 1, true, false)], [Finished, BRunning(0), EPending([])])
  }

  function StaleWho(i: nat): Tid { if i < 4 then 0 else if i == 4 || i >= 9 then 1 else 2 }

  lemma StaleEarly(i: nat)
    requires i < 5
    ensures Next(StaleState(i), StaleWho(i), StaleState(i + 1))
  {}

  lemma StaleEvict(i: nat)
    requires 5 <= i < 9
    ensures Next(StaleState(i), StaleWho(i), StaleState(i + 1))
  {
    assert [0 as Eid][1..] == [];
    if i == 5 {
      var s, cached, ids := StaleState(5), map["s" := 0 as Eid], {"s"};
      assert cached - ids == map[] && cached.Keys * ids == ids;
      assert cached["s"] == 0;
      assert Takes(One("s"), cached, ids) && Lists([0], cached, ids);
      assert StaleState(6) == Moved(s, 2, EPending([0])).(entries := s.entries - ids);
    }
  }

  lemma StaleLate(i: nat)
    requires 9 <= i < 12
    ensures Next(StaleState(i), StaleWho(i), StaleState(i + 1))
  {}

  /** A Build that looks an entry up just before an eviction, and locks it just after, hands its Run
      a sandbox that has been cleaned. */
  lemma StaleCheckout() returns (b: seq<State>, who: seq<Tid>)
    ensures Behavior(b, who)
    ensures var last := b[|b| - 1];
            |last.threads| == 3 && last.threads[1] == BRunning(0) && |last.ents| == 1 && last.ents[0].cleaned == 1
  {
    hide Next;
    b := seq(13, i requires 0 <= i < 13 => StaleState(i));
    who := seq(12, i requires 0 <= i < 12 => StaleWho(i));
    forall i | 0 <= i < 12 ensures who[i] < |b[i].threads| && Next(b[i], who[i], b[i + 1]) {
      assert b[i] == StaleState(i) && who[i] == StaleWho(i) && b[i + 1] == StaleState(i + 1);
      if i < 5 { StaleEarly(i); } else if i < 9 { StaleEvict(i); } else { StaleLate(i); }
    }
    assert b[0] == StaleState(0) && b[12] == StaleState(12);
  }

  /** And what it got does not change while it has it. */
  lemma HeldStaysAsItIs(b: seq<State>, who: seq<Tid>, i: nat, t: Tid, e: Eid)
    requires Behavior(b, who) && i < |who| && t < |b[i].threads|
    requires UsedByRun(b[i].threads[t], e) && UsedByRun(b[i + 1].threads[t], e)
    ensures e < |b[i].ents| <= |b[i + 1].ents| && b[i + 1].ents[e] == b[i].ents[e]
  {
    Reachable(b, who, i);
    assert PcOk(b[i], t);
    if t == who[i] {
      assert false;
    } else {
      Untouched(b[i], who[i], b[i + 1], t, e);
      StepTouches(b[i], who[i], b[i + 1]);
    }
  }

  // ---- progress ----

  ghost predicate CanStep(s: State, t: Tid)
    requires t < |s.threads|
  {
    exists s' :: Next(s, t, s')
  }

  /** A thread that holds a lock is never stuck. */
  lemma HolderSteps(s: State, t: Tid, e: Eid)
    requires Inv(s) && t < |s.threads| && Hold(s.threads[t], e) > 0
    ensures CanStep(s, t)
  {
    assert PcOk(s, t);
    hide Conserved, LockLaw;
    match s.threads[t]
    case BStore(sid, b) =>
      assert Private(s.threads[t], b);
      assert Next(s, t, if sid in s.entries then Moved(s, t, BLost(b, s.entries[sid]))
                        else With(Moved(s, t, BRunning(b)), b,
                            s.ents[b].(published := true)).(entries := s.entries[sid := b]));
    case BLost(b, w) =>
      assert Private(s.threads[t], b);
      assert Next(s, t, With(Moved(s, t, BWait(w)), b,
          s.ents[b].(cleaned := s.ents[b].cleaned + 1, abandoned := true)));
    case BLocked(b) =>
      assert Refers(s.threads[t], b);
      assert Next(s, t, With(Moved(s, t, BSwapped(b)), b, s.ents[b].(ctx := t)));
    case BSwapped(b) =>
      assert Refers(s.threads[t], b);
      assert Next(s, t, With(Moved(s, t, BRunning(b)), b, s.ents[b].(onEvent := t)));
    case BRunning(b) =>
      assert Refers(s.threads[t], b);
      assert Next(s, t, With(Moved(s, t, Finished), b, s.ents[b].(locked := false)));
    case ELocked(es) =>
      QueuePublished(s, t, es);
      assert es[0] in es;
      assert Next(s, t, With(Moved(s, t, ECleaned(es)), es[0], s.ents[es[0]].(cleaned := s.ents[es[0]].cleaned + 1)));
    case ECleaned(es) =>
      QueuePublished(s, t, es);
      assert es[0] in es;
      assert Next(s, t, With(Moved(s, t, EPending(es[1..])), es[0], s.ents[es[0]].(locked := false)));
  }

  /** A thread waiting for a published entry can go on, or whoever holds the entry can. */
  lemma SomebodyFor(s: State, e: Eid) returns (free: bool, u: Tid)
    requires Inv(s) && e < |s.ents| && s.ents[e].published
    ensures free <==> !s.ents[e].locked
    ensures !free ==> u < |s.threads| && CanStep(s, u)
  {
    free, u := !s.ents[e].locked, 0;
    if !free {
      assert LockLaw(s, e);
      u := SumPositive(s.threads, HoldOf(e));
      HolderSteps(s, u, e);
    }
  }

  /** No deadlock: as long as some thread is unfinished, some thread can take a step. */
  lemma NoDeadlock(b: seq<State>, who: seq<Tid>, i: nat, t: Tid)
    requires Behavior(b, who) && i < |b| && t < |b[i].threads| && !b[i].threads[t].Finished?
    ensures exists u | 0 <= u < |b[i].threads| :: CanStep(b[i], u)
  {
    Reachable(b, who, i);
    Unstuck(b[i], t);
  }

  lemma Unstuck(s: State, t: Tid)
    requires Inv(s) && t < |s.threads| && !s.threads[t].Finished?
    ensures exists u | 0 <= u < |s.threads| :: CanStep(s, u)
  {
    assert PcOk(s, t);
    hide Conserved, LockLaw, Sum;
    match s.threads[t]
    case BStart(sid) =>
      assert Next(s, t, Moved(s, t, if sid in s.entries then BWait(s.entries[sid]) else BMiss(sid)));
      assert CanStep(s, t);
    case BMiss(_) =>
      assert Next(s, t, Moved(s, t, Finished));
      assert CanStep(s, t);
    case EStart(sweep) =>
      SweepPossible(s, t);
    case BWait(e) =>
      assert Refers(s.threads[t], e);
      var free, u := SomebodyFor(s, e);
      if free { assert Next(s, t, With(Moved(s, t, BLocked(e)), e, s.ents[e].(locked := true))); assert CanStep(s, t); }
    case EPending(es) =>
      if es == [] {
        assert Next(s, t, Moved(s, t, Finished));
        assert CanStep(s, t);
      } else {
        QueuePublished(s, t, es);
        var e := es[0];
        assert e in es;
        var free, u := SomebodyFor(s, e);
        if free {
          assert Next(s, t, With(Moved(s, t, ELocked(es)), e, s.ents[e].(locked := true)));
          assert CanStep(s, t);
        }
      }
    case BStore(_, e) => HolderSteps(s, t, e);
    case BLost(e, _) => HolderSteps(s, t, e);
    case BLocked(e) => HolderSteps(s, t, e);
    case BSwapped(e) => HolderSteps(s, t, e);
    case BRunning(e) => HolderSteps(s, t, e);
    case ELocked(es) => HolderSteps(s, t, es[0]);
    case ECleaned(es) => HolderSteps(s, t, es[0]);
  }

  /** The whole map, or the part of it under some ids, can always be listed. */
  lemma {:induction false} SomeListing(m: map<Sid, Eid>, ids: set<Sid>) returns (es: seq<Eid>)
    requires ids <= m.Keys && forall j, k | j in m && k in m && m[j] == m[k] :: j == k
    ensures Lists(es, m, ids)
    decreases ids
  {
    if ids == {} {
      es := [];
    } else {
      var k :| k in ids;
      var rest := SomeListing(m, ids - {k});
      es := rest + [m[k]];
      assert m[k] !in rest;
      forall e ensures e in es <==> exists j | j in ids :: m[j] == e {
        if e in es { if e in rest { var j :| j in ids - {k} && m[j] == e; } else { assert m[k] == e; } }
        if j :| j in ids && m[j] == e { if j != k { assert j in ids - {k}; } }
      }
    }
  }

  lemma SweepPossible(s: State, t: Tid)
    requires MapOk(s) && t < |s.threads| && s.threads[t].EStart?
    ensures exists u | 0 <= u < |s.threads| :: CanStep(s, u)
  {
    var ids :=
      match s.threads[t].sweep
      case One(sid) => s.entries.Keys * {sid}
      case Idle => {}
      case All => s.entries.Keys;
    var es := SomeListing(s.entries, ids);
    assert Next(s, t, Moved(s, t, EPending(es)).(entries := s.entries - ids));
    assert CanStep(s, t);
  }

  // ---- termination ----

  /** How many steps a thread at pc may still take, when at most n entries are ever built. */
  function Remaining(pc: Pc, n: nat): nat {
    match pc
    case BStart(_) => 8
    case BMiss(_) => 7
    case BStore(_, _) => 6
    case BLost(_, _) => 5
    case BWait(_) => 4
    case BLocked(_) => 3
    case BSwapped(_) => 2
    case BRunning(_) => 1
    case EStart(_) => 3 * n + 2
    case EPending(es) => 3 * |es| + 1
    case ELocked(es) => 3 * |es|
    case ECleaned(es) => if es == [] then 0 else 3 * |es| - 1
    case Finished => 0
  }

  function RemainingOf(n: nat): Pc -> nat { (pc: Pc) => Remaining(pc, n) }

  /** One entry at most is still to come from a thread that has not built yet. */
  function MayBuild(): Pc -> nat { (pc: Pc) => if pc.BStart? || pc.BMiss? then 1 else 0 }

  ghost predicate FewEntries(s: State) {
    |s.ents| + Sum(s.threads, MayBuild()) <= |s.threads|
  }

  lemma {:induction false} AtMostOneEach(ts: seq<Pc>)
    ensures Sum(ts, MayBuild()) <= |ts|
  {
    if ts != [] { AtMostOneEach(ts[1..]); }
  }

  lemma {:induction false} DistinctBelow(es: seq<Eid>, n: nat)
    requires forall i, j | 0 <= i < j < |es| :: es[i] != es[j]
    requires forall e | e in es :: e < n
    ensures |es| <= n
    decreases n
  {
    assert es != [] ==> es[0] in es;
    if n == 0 {
    } else if n - 1 in es {
      var k :| 0 <= k < |es| && es[k] == n - 1;
      var rest := es[..k] + es[k + 1..];
      forall i, j | 0 <= i < j < |rest| ensures rest[i] != rest[j] {
        assert rest[i] == es[if i < k then i else i + 1] && rest[j] == es[if j < k then j else j + 1];
      }
      forall e | e in rest ensures e < n - 1 {
        var i :| 0 <= i < |rest| && rest[i] == e;
        var j := if i < k then i else i + 1;
        assert e == es[j] && j != k && es[j] in es;
      }
      DistinctBelow(rest, n - 1);
    } else {
      DistinctBelow(es, n - 1);
    }
  }

  lemma ListingShort(s: State, es: seq<Eid>, ids: set<Sid>)
    requires MapOk(s) && Lists(es, s.entries, ids)
    ensures |es| <= |s.ents|
  {
    forall e | e in es ensures e < |s.ents| {
      var k :| k in ids && s.entries[k] == e;
    }
    DistinctBelow(es, |s.ents|);
  }

  /** Each step brings the stepping thread closer to its end. */
  lemma StepShortens(s: State, t: Tid, s': State, n: nat)
    requires MapOk(s) && t < |s.threads| && Next(s, t, s') && |s.ents| <= n
    ensures t < |s'.threads|
    ensures Remaining(s'.threads[t], n) < Remaining(s.threads[t], n)
    ensures |s'.ents| + MayBuild()(s'.threads[t]) <= |s.ents| + MayBuild()(s.threads[t])
  {
    hide *;
    var pc := s.threads[t];
    if pc.EStart? {
      SweepShortens(s, t, s', n);
    } else if pc.EPending? || pc.ELocked? || pc.ECleaned? {
      EvictShortens(s, t, s', n);
    } else {
      BuildShortens(s, t, s', n);
    }
  }

  lemma SweepShortens(s: State, t: Tid, s': State, n: nat)
    requires MapOk(s) && t < |s.threads| && Next(s, t, s') && |s.ents| <= n && s.threads[t].EStart?
    ensures t < |s'.threads|
    ensures Remaining(s'.threads[t], n) < Remaining(s.threads[t], n)
    ensures |s'.ents| + MayBuild()(s'.threads[t]) <= |s.ents| + MayBuild()(s.threads[t])
  {
    var ids, es :| Takes(s.threads[t].sweep, s.entries, ids) && Lists(es, s.entries, ids)
                   && s' == Moved(s, t, EPending(es)).(entries := s.entries - ids);
    hide Next;
    ListingShort(s, es, ids);
  }

  lemma EvictShortens(s: State, t: Tid, s': State, n: nat)
    requires t < |s.threads| && Next(s, t, s')
    requires var pc := s.threads[t]; pc.EPending? || pc.ELocked? || pc.ECleaned?
    ensures t < |s'.threads|
    ensures Remaining(s'.threads[t], n) < Remaining(s.threads[t], n)
    ensures |s'.ents| + MayBuild()(s'.threads[t]) <= |s.ents| + MayBuild()(s.threads[t])
  {}

  lemma BuildShortens(s: State, t: Tid, s': State, n: nat)
    requires t < |s.threads| && Next(s, t, s')
    requires var pc := s.threads[t]; !pc.EStart? && !pc.EPending? && !pc.ELocked? && !pc.ECleaned?
    ensures t < |s'.threads|
    ensures Remaining(s'.threads[t], n) < Remaining(s.threads[t], n)
    ensures |s'.ents| + MayBuild()(s'.threads[t]) <= |s.ents| + MayBuild()(s.threads[t])
  {}

  lemma StepUsesUp(s: State, t: Tid, s': State)
    requires Inv(s) && t < |s.threads| && Next(s, t, s') && FewEntries(s)
    ensures |s'.threads| == |s.threads| && FewEntries(s')
    ensures Sum(s'.threads, RemainingOf(|s.threads|)) < Sum(s.threads, RemainingOf(|s.threads|))
  {
    var n := |s.threads|;
    StepTouches(s, t, s');
    StepShortens(s, t, s', n);
    assert s'.threads == s.threads[t := s'.threads[t]];
    hide Sum, Inv, Next, Remaining, MayBuild;
    SumUpdate(s.threads, t, s'.threads[t], MayBuild());
    SumUpdate(s.threads, t, s'.threads[t], RemainingOf(n));
  }

  /** Every interleaving is finite: it has at most as many steps as the threads' budgets allow, which
      for n operations is at most n * (3n + 8). With NoDeadlock, every interleaving that cannot be
      continued has all operations finished. */
  lemma {:induction false} Terminates(b: seq<State>, who: seq<Tid>)
    requires Behavior(b, who)
    ensures var n := |b[0].threads|;
            |who| + Sum(b[|who|].threads, RemainingOf(n)) <= Sum(b[0].threads, RemainingOf(n)) <= n * (3 * n + 8)
    ensures FewEntries(b[|who|])
    decreases |who|
  {
    var n := |b[0].threads|;
    AtMostOneEach(b[0].threads);
    BudgetBound(b[0].threads, n);
    hide Sum;
    if |who| > 0 {
      var k := |who| - 1;
      assert Behavior(b[..|b| - 1], who[..k]);
      Terminates(b[..|b| - 1], who[..k]);
      Reachable(b, who, k);
      StepUsesUp(b[k], who[k], b[k + 1]);
      hide Next, Inv, FewEntries;
    }
  }

  lemma {:induction false} BudgetBound(ts: seq<Pc>, n: nat)
    requires forall t | 0 <= t < |ts| :: ts[t].BStart? || ts[t].EStart?
    ensures Sum(ts, RemainingOf(n)) <= |ts| * (3 * n + 8)
  {
    if ts != [] {
      BudgetBound(ts[1..], n);
      assert |ts| * (3 * n + 8) == |ts[1..]| * (3 * n + 8) + (3 * n + 8);
    }
  }
}
