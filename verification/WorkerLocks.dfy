/**
 Scheduled tasks under advisory locks (apps/api/src/worker.ts), together with the API's fallback
 timers (apps/api/src/app.ts), which take the same locks through the same function
 (apps/api/src/services/singleFlight.ts) on connections of one pool (apps/api/src/db.ts).
 */
module WorkerLocks {
  import opened Wrappers
  import opened OrderedSets

  // ------------------------------------------------------------------ the protocol

  /** One attempt at a task: a delivery, a re-delivery of a stalled job, or a timer tick. */
  datatype Phase =
    | Idle
    | Connected(key: int, session: nat)
    | Holding(key: int, session: nat)
    | Running(key: int, session: nat)
    | Finishing(key: int, session: nat, ok: bool)
    | Skipped(key: int)
    | Failed(key: int)
    | Done(key: int, ok: bool)
    | Crashed

  /**
   A query that times out on the client's side leaves the connection in use, and its work done or not.
   An attempt can lose its session at any time, and the pool may close a connection nobody uses.
   */
  datatype Action =
    | Connect(key: int, session: nat)
    | ConnectFails(key: int)
    | TryLock
    | TryTimesOut(taken: bool)
    | StartHandler
    | EndHandler(ok: bool)
    | Release
    | UnlockTimesOut(freed: bool)
    | Crash
    | LoseSession
    | CloseIdle(session: nat)

  /** A lock belongs to a session, which may take it several times over. */
  datatype Lock = Lock(session: nat, count: nat)

  /** `stuck` counts the holds that a time-out left behind on a session, without an attempt to give them back. */
  datatype State = State(
    phases: map<nat, Phase>, locks: map<int, Lock>, dead: set<nat>, started: seq<nat>, stuck: multiset<(int, nat)>)

  const Start := State(map[], map[], {}, [], multiset{})

  function PhaseOf(s: State, r: nat): Phase { if r in s.phases then s.phases[r] else Idle }

  function Move(s: State, r: nat, p: Phase): State { s.(phases := s.phases[r := p]) }

  predicate HasSession(p: Phase) { p.Connected? || p.Holding? || p.Running? || p.Finishing? }

  predicate InUse(s: State, session: nat)
  {
    exists r :: r in s.phases && HasSession(s.phases[r]) && s.phases[r].session == session
  }

  /** All locks of a session that ended. */
  function Drop(locks: map<int, Lock>, session: nat): map<int, Lock>
  {
    map k | k in locks && locks[k].session != session :: locks[k]
  }

  function End(s: State, session: nat): State { s.(locks := Drop(s.locks, session), dead := s.dead + {session}) }

  /** pg_try_advisory_lock: granted when the key is free or the session already has it. */
  predicate Grants(s: State, key: int, session: nat)
  {
    session !in s.dead && (key !in s.locks || s.locks[key].session == session)
  }

  function Granted(locks: map<int, Lock>, key: int, session: nat): map<int, Lock>
  {
    locks[key := Lock(session, 1 + if key in locks then locks[key].count else 0)]
  }

  /** pg_advisory_unlock: gives back one hold of the calling session. */
  function Unlocked(locks: map<int, Lock>, key: int, session: nat): map<int, Lock>
  {
    if key !in locks || locks[key].session != session then locks
    else if locks[key].count > 1 then locks[key := Lock(session, locks[key].count - 1)]
    else locks - {key}
  }

  function Leave(s: State, key: int, session: nat): State { s.(stuck := s.stuck + multiset{(key, session)}) }

  function TryStep(s: State, r: nat, key: int, session: nat): State
  {
    if session in s.dead then Move(s, r, Failed(key))
    else if Grants(s, key, session) then Move(s, r, Holding(key, session)).(locks := Granted(s.locks, key, session))
    else Move(s, r, Skipped(key))
  }

  function TryTimeOutStep(s: State, r: nat, key: int, session: nat, taken: bool): State
  {
    var t := Move(s, r, Failed(key));
    if taken && Grants(s, key, session) then Leave(t.(locks := Granted(s.locks, key, session)), key, session) else t
  }

  function UnlockStep(s: State, r: nat, key: int, session: nat, ok: bool, freed: bool): State
  {
    var t := Move(s, r, Done(key, ok));
    if session in s.dead then t
    else if freed then t.(locks := Unlocked(s.locks, key, session))
    else Leave(t, key, session)
  }

  function Step(s: State, r: nat, a: Action): State
  {
    match (PhaseOf(s, r), a)
    case (Idle, Connect(key, session)) =>
      if session in s.dead || InUse(s, session) then s else Move(s, r, Connected(key, session))
    case (Idle, ConnectFails(key)) => Move(s, r, Failed(key))
    case (Connected(key, session), TryLock) => TryStep(s, r, key, session)
    case (Connected(key, session), TryTimesOut(taken)) => TryTimeOutStep(s, r, key, session, taken)
    case (Holding(key, session), StartHandler) => Move(s, r, Running(key, session)).(started := s.started + [r])
    case (Running(key, session), EndHandler(ok)) => Move(s, r, Finishing(key, session, ok))
    case (Finishing(key, session, ok), Release) => UnlockStep(s, r, key, session, ok, true)
    case (Finishing(key, session, ok), UnlockTimesOut(freed)) => UnlockStep(s, r, key, session, ok, freed)
    case (p, Crash) => if HasSession(p) then End(Move(s, r, Crashed), p.session) else s
    case (p, LoseSession) => if HasSession(p) then End(s, p.session) else s
    case (_, CloseIdle(session)) => if InUse(s, session) then s else End(s, session)
    case _ => s
  }

  function Run(s: State, steps: seq<(nat, Action)>): State
  {
    if steps == [] then s
    else var n := |steps| - 1; Step(Run(s, steps[..n]), steps[n].0, steps[n].1)
  }

  // ------------------------------------------------------------------ invariant

  predicate Locked(p: Phase) { p.Holding? || p.Running? || p.Finishing? }

  /** No two attempts share a connection. */
  ghost predicate SessionsApart(s: State)
  {
    forall r, q :: r in s.phases && q in s.phases && r != q && HasSession(s.phases[r]) && HasSession(s.phases[q]) ==>
      s.phases[r].session != s.phases[q].session
  }

  function StuckAt(s: State, k: int, session: nat): nat { s.stuck[(k, session)] }

  /** An attempt past the lock holds its key once, besides what is stuck on its session, unless the session is gone. */
  ghost predicate HoldersLocked(s: State)
  {
    forall r :: r in s.phases && Locked(s.phases[r]) && s.phases[r].session !in s.dead ==>
      s.phases[r].key in s.locks
      && s.locks[s.phases[r].key]
           == Lock(s.phases[r].session, StuckAt(s, s.phases[r].key, s.phases[r].session) + 1)
  }

  predicate HeldBy(s: State, k: int, r: nat)
  {
    && k in s.locks && r in s.phases && Locked(s.phases[r])
    && s.phases[r].key == k && s.phases[r].session == s.locks[k].session && s.phases[r].session !in s.dead
  }

  /** Every lock is on a live session, and is held by an attempt or stuck. */
  ghost predicate LocksExplained(s: State)
  {
    forall k :: k in s.locks ==>
      && s.locks[k].session !in s.dead && s.locks[k].count > 0
      && ((exists r :: HeldBy(s, k, r)) || s.locks[k].count == StuckAt(s, k, s.locks[k].session))
  }

  /** A hold stuck on a live session is a lock. */
  ghost predicate StuckLocked(s: State)
  {
    forall k, session :: session !in s.dead && StuckAt(s, k, session) > 0 ==>
      k in s.locks && s.locks[k].session == session
  }

  /** Exactly the attempts that were granted a lock can have called the handler. */
  ghost predicate StartersWereGranted(s: State)
  {
    forall i :: 0 <= i < |s.started| ==>
      s.started[i] in s.phases && !s.phases[s.started[i]].Idle? && !s.phases[s.started[i]].Connected?
      && !s.phases[s.started[i]].Skipped? && !s.phases[s.started[i]].Failed? && !s.phases[s.started[i]].Holding?
  }

  ghost predicate Inv(s: State)
  {
    SessionsApart(s) && HoldersLocked(s) && LocksExplained(s) && StuckLocked(s) && StartersWereGranted(s)
  }

  /** A connection that has not locked anything yet: what it holds is stuck on it. */
  lemma FreshSessionHoldsStuck(s: State, r: nat, k: int)
    requires Inv(s) && PhaseOf(s, r).Connected? && k in s.locks && s.locks[k].session == PhaseOf(s, r).session
    ensures s.locks[k].count == StuckAt(s, k, PhaseOf(s, r).session)
  {
    assert !exists q :: HeldBy(s, k, q);
  }

  /** The holders that a step leaves alone. */
  lemma SameHolder(s: State, t: State, k: int, q: nat)
    requires HeldBy(s, k, q) && q in t.phases && Locked(t.phases[q])
    requires t.phases[q].key == k && t.phases[q].session == s.phases[q].session
    requires k in t.locks && t.locks[k].session == s.locks[k].session && t.phases[q].session !in t.dead
    ensures HeldBy(t, k, q)
  {}

  lemma ConnectKeepsInv(s: State, r: nat, a: Action)
    requires Inv(s) && (a.Connect? || a.ConnectFails?)
    ensures Inv(Step(s, r, a))
  {
    var t := Step(s, r, a);
    if t != s {
      forall k | k in t.locks && exists q :: HeldBy(s, k, q) ensures exists q :: HeldBy(t, k, q) {
        var q :| HeldBy(s, k, q);
        SameHolder(s, t, k, q);
      }
      assert forall k, session :: StuckAt(t, k, session) == StuckAt(s, k, session);
    }
  }

  lemma GrantKeepsHolders(s: State, r: nat)
    requires Inv(s) && PhaseOf(s, r).Connected? && Grants(s, PhaseOf(s, r).key, PhaseOf(s, r).session)
    ensures var t := Step(s, r, TryLock);
        SessionsApart(t) && HoldersLocked(t) && StuckLocked(t) && StartersWereGranted(t)
  {
    var t, p := Step(s, r, TryLock), PhaseOf(s, r);
    if p.key in s.locks { FreshSessionHoldsStuck(s, r, p.key); }
    assert forall k, session :: StuckAt(t, k, session) == StuckAt(s, k, session);
  }

  lemma GrantKeepsExplained(s: State, r: nat)
    requires Inv(s) && PhaseOf(s, r).Connected? && Grants(s, PhaseOf(s, r).key, PhaseOf(s, r).session)
    ensures LocksExplained(Step(s, r, TryLock))
  {
    var t, p := Step(s, r, TryLock), PhaseOf(s, r);
    forall k | k in t.locks
      ensures t.locks[k].session !in t.dead && t.locks[k].count > 0
      ensures (exists q :: HeldBy(t, k, q)) || t.locks[k].count == StuckAt(t, k, t.locks[k].session)
    {
      if k == p.key {
        assert HeldBy(t, k, r);
      } else if q :| HeldBy(s, k, q) {
        SameHolder(s, t, k, q);
      }
    }
  }

  lemma TryLockKeepsInv(s: State, r: nat)
    requires Inv(s)
    ensures Inv(Step(s, r, TryLock))
  {
    var t, p := Step(s, r, TryLock), PhaseOf(s, r);
    if p.Connected? {
      if Grants(s, p.key, p.session) {
        GrantKeepsHolders(s, r);
        GrantKeepsExplained(s, r);
      } else {
        RefusalKeepsInv(s, r, t.phases[r]);
      }
    }
  }

  /** An attempt that ends without having held anything. */
  lemma RefusalKeepsInv(s: State, r: nat, p: Phase)
    requires Inv(s) && !Locked(PhaseOf(s, r)) && !PhaseOf(s, r).Done? && PhaseOf(s, r) != Crashed
    requires (p.Skipped? || p.Failed?) && r !in s.started
    ensures Inv(Move(s, r, p))
  {
    var t := Move(s, r, p);
    forall k | k in t.locks && exists q :: HeldBy(s, k, q) ensures exists q :: HeldBy(t, k, q) {
      var q :| HeldBy(s, k, q);
      SameHolder(s, t, k, q);
    }
    assert forall k, session :: StuckAt(t, k, session) == StuckAt(s, k, session);
  }

  lemma LostGrantKeepsHolders(s: State, r: nat)
    requires Inv(s) && PhaseOf(s, r).Connected? && Grants(s, PhaseOf(s, r).key, PhaseOf(s, r).session)
    ensures var t := Step(s, r, TryTimesOut(true));
            SessionsApart(t) && HoldersLocked(t) && StuckLocked(t) && StartersWereGranted(t)
  {
    var t, p := Step(s, r, TryTimesOut(true)), PhaseOf(s, r);
    forall k, session: nat ensures StuckAt(t, k, session) ==
      StuckAt(s, k, session) + if (k, session) == (p.key, p.session) then 1 else 0 {}
  }

  lemma LostGrantKeepsExplained(s: State, r: nat)
    requires Inv(s) && PhaseOf(s, r).Connected? && Grants(s, PhaseOf(s, r).key, PhaseOf(s, r).session)
    ensures LocksExplained(Step(s, r, TryTimesOut(true)))
  {
    var t, p := Step(s, r, TryTimesOut(true)), PhaseOf(s, r);
    if p.key in s.locks { FreshSessionHoldsStuck(s, r, p.key); }
    forall k | k in t.locks
      ensures t.locks[k].session !in t.dead && t.locks[k].count > 0
      ensures (exists q :: HeldBy(t, k, q)) || t.locks[k].count == StuckAt(t, k, t.locks[k].session)
    {
      if k != p.key {
        assert StuckAt(t, k, t.locks[k].session) == StuckAt(s, k, t.locks[k].session);
        if q :| HeldBy(s, k, q) { SameHolder(s, t, k, q); }
      }
    }
  }

  lemma TryTimesOutKeepsInv(s: State, r: nat, taken: bool)
    requires Inv(s)
    ensures Inv(Step(s, r, TryTimesOut(taken)))
  {
    var p := PhaseOf(s, r);
    if p.Connected? {
      if taken && Grants(s, p.key, p.session) {
        LostGrantKeepsHolders(s, r);
        LostGrantKeepsExplained(s, r);
      } else {
        RefusalKeepsInv(s, r, Failed(p.key));
      }
    }
  }

  lemma HandlerKeepsInv(s: State, r: nat, a: Action)
    requires Inv(s) && (a.StartHandler? || a.EndHandler?)
    ensures Inv(Step(s, r, a))
  {
    var t := Step(s, r, a);
    if t != s {
      forall k | k in t.locks && exists q :: HeldBy(s, k, q) ensures exists q :: HeldBy(t, k, q) {
        var q :| HeldBy(s, k, q);
        SameHolder(s, t, k, q);
      }
      assert forall k, session :: StuckAt(t, k, session) == StuckAt(s, k, session);
    }
  }

  lemma UnlockKeepsStuck(s: State, r: nat, freed: bool)
    requires Inv(s) && PhaseOf(s, r).Finishing?
    ensures var p := PhaseOf(s, r); StuckLocked(UnlockStep(s, r, p.key, p.session, p.ok, freed))
  {
    var p := PhaseOf(s, r);
    var t := UnlockStep(s, r, p.key, p.session, p.ok, freed);
    hide LocksExplained, StartersWereGranted;
    forall k, session: nat ensures StuckAt(t, k, session) ==
      StuckAt(s, k, session) + if (k, session) == (p.key, p.session) && t.stuck != s.stuck then 1 else 0 {}
  }

  lemma UnlockKeepsHolders(s: State, r: nat, freed: bool)
    requires Inv(s) && PhaseOf(s, r).Finishing?
    ensures var p := PhaseOf(s, r);
            var t := UnlockStep(s, r, p.key, p.session, p.ok, freed);
            SessionsApart(t) && HoldersLocked(t) && StartersWereGranted(t)
  {
    hide LocksExplained, StuckLocked;
    var p := PhaseOf(s, r);
    var t := UnlockStep(s, r, p.key, p.session, p.ok, freed);
    forall k, session: nat ensures StuckAt(t, k, session) ==
      StuckAt(s, k, session) + if (k, session) == (p.key, p.session) && t.stuck != s.stuck then 1 else 0 {}
  }

  /** What a finished attempt's session still locks is stuck on it. */
  lemma OnlyStuckIsLeft(s: State, r: nat, k: int)
    requires Inv(s) && PhaseOf(s, r).Finishing? && k in s.locks && s.locks[k].session == PhaseOf(s, r).session
    ensures s.locks[k].count == StuckAt(s, k, PhaseOf(s, r).session) + if k == PhaseOf(s, r).key then 1 else 0
  {
    if k != PhaseOf(s, r).key { assert !exists q :: HeldBy(s, k, q); }
  }

  lemma UnlockKeepsExplained(s: State, r: nat, freed: bool)
    requires Inv(s) && PhaseOf(s, r).Finishing?
    ensures var p := PhaseOf(s, r); LocksExplained(UnlockStep(s, r, p.key, p.session, p.ok, freed))
  {
    var p := PhaseOf(s, r);
    var t := UnlockStep(s, r, p.key, p.session, p.ok, freed);
    forall k | k in t.locks
      ensures t.locks[k].session !in t.dead && t.locks[k].count > 0
      ensures (exists q :: HeldBy(t, k, q)) || t.locks[k].count == StuckAt(t, k, t.locks[k].session)
    {
      if t.locks[k].session == p.session {
        OnlyStuckIsLeft(s, r, k);
        assert k != p.key ==> StuckAt(t, k, p.session) == StuckAt(s, k, p.session);
      } else {
        assert StuckAt(t, k, t.locks[k].session) == StuckAt(s, k, t.locks[k].session);
        if q :| HeldBy(s, k, q) { SameHolder(s, t, k, q); }
      }
    }
  }

  lemma UnlockKeepsInv(s: State, r: nat, a: Action)
    requires Inv(s) && (a.Release? || a.UnlockTimesOut?)
    ensures Inv(Step(s, r, a))
  {
    if PhaseOf(s, r).Finishing? {
      UnlockKeepsHolders(s, r, a.Release? || a.freed);
      UnlockKeepsStuck(s, r, a.Release? || a.freed);
      UnlockKeepsExplained(s, r, a.Release? || a.freed);
    }
  }

  /** A session ends, and with it all its locks; whoever used it may be gone too. */
  lemma EndKeepsHolders(s: State, t: State, session: nat)
    requires Inv(s) && t == End(s.(phases := t.phases), session)
    requires forall q :: q in t.phases && HasSession(t.phases[q]) ==> q in s.phases && t.phases[q] == s.phases[q]
    requires forall q :: q in s.phases ==> q in t.phases && (t.phases[q] == s.phases[q] || t.phases[q] == Crashed)
    ensures SessionsApart(t) && HoldersLocked(t) && StuckLocked(t) && StartersWereGranted(t)
  {
    assert forall k, ses :: StuckAt(t, k, ses) == StuckAt(s, k, ses);
  }

  lemma EndKeepsExplained(s: State, t: State, session: nat)
    requires Inv(s) && t == End(s.(phases := t.phases), session)
    requires forall q :: q in s.phases && HasSession(s.phases[q]) && s.phases[q].session != session ==>
               q in t.phases && t.phases[q] == s.phases[q]
    ensures LocksExplained(t)
  {
    forall k | k in t.locks
      ensures t.locks[k].session !in t.dead && t.locks[k].count > 0
      ensures (exists q :: HeldBy(t, k, q)) || t.locks[k].count == StuckAt(t, k, t.locks[k].session)
    {
      if q :| HeldBy(s, k, q) { SameHolder(s, t, k, q); }
    }
  }

  lemma CloseKeepsInv(s: State, r: nat, session: nat)
    requires Inv(s)
    ensures Inv(Step(s, r, CloseIdle(session)))
  {
    var t := Step(s, r, CloseIdle(session));
    if !InUse(s, session) {
      EndKeepsHolders(s, t, session);
      EndKeepsExplained(s, t, session);
    }
  }

  lemma LossKeepsInv(s: State, r: nat, a: Action)
    requires Inv(s) && (a.Crash? || a.LoseSession?)
    ensures Inv(Step(s, r, a))
  {
    var t, p := Step(s, r, a), PhaseOf(s, r);
    if HasSession(p) {
      EndKeepsHolders(s, t, p.session);
      EndKeepsExplained(s, t, p.session);
    }
  }

  lemma StepKeepsInv(s: State, r: nat, a: Action)
    requires Inv(s)
    ensures Inv(Step(s, r, a))
  {
    match a
    case Connect(_, _) => ConnectKeepsInv(s, r, a);
    case ConnectFails(_) => ConnectKeepsInv(s, r, a);
    case TryLock => TryLockKeepsInv(s, r);
    case TryTimesOut(taken) => TryTimesOutKeepsInv(s, r, taken);
    case StartHandler => HandlerKeepsInv(s, r, a);
    case EndHandler(_) => HandlerKeepsInv(s, r, a);
    case Release => UnlockKeepsInv(s, r, a);
    case UnlockTimesOut(_) => UnlockKeepsInv(s, r, a);
    case Crash => LossKeepsInv(s, r, a);
    case LoseSession => LossKeepsInv(s, r, a);
    case CloseIdle(session) => CloseKeepsInv(s, r, session);
  }

  lemma {:induction false} RunKeepsInv(steps: seq<(nat, Action)>)
    ensures Inv(Run(Start, steps))
  {
    if steps != [] {
      var n := |steps| - 1;
      RunKeepsInv(steps[..n]);
      StepKeepsInv(Run(Start, steps[..n]), steps[n].0, steps[n].1);
    }
  }

  // ------------------------------------------------------------------ what every interleaving keeps

  /** Two handlers under one key can only overlap when one of them has already lost its database session. */
  lemma OneLiveHandlerPerKey(steps: seq<(nat, Action)>, r: nat, q: nat)
    requires var s := Run(Start, steps);
             && PhaseOf(s, r).Running? && PhaseOf(s, q).Running?
             && PhaseOf(s, r).key == PhaseOf(s, q).key && r != q
    ensures var s := Run(Start, steps); PhaseOf(s, r).session in s.dead || PhaseOf(s, q).session in s.dead
  {
    RunKeepsInv(steps);
  }

  predicate NoSessionLost(steps: seq<(nat, Action)>) { forall i :: 0 <= i < |steps| ==> !steps[i].1.LoseSession? }

  lemma StepKeepsSessionAlive(s: State, q: nat, a: Action, r: nat)
    requires SessionsApart(s) && !a.LoseSession?
    requires HasSession(PhaseOf(s, r)) ==> PhaseOf(s, r).session !in s.dead
    ensures var t := Step(s, q, a); HasSession(PhaseOf(t, r)) ==> PhaseOf(t, r).session !in t.dead
  {}

  /** Sessions in use only end by crashes then, and a crashed attempt runs nothing. */
  lemma {:induction false} RunningSessionsAlive(steps: seq<(nat, Action)>, r: nat)
    requires NoSessionLost(steps)
    ensures var s := Run(Start, steps); HasSession(PhaseOf(s, r)) ==> PhaseOf(s, r).session !in s.dead
  {
    if steps != [] {
      var n := |steps| - 1;
      RunKeepsInv(steps[..n]);
      RunningSessionsAlive(steps[..n], r);
      StepKeepsSessionAlive(Run(Start, steps[..n]), steps[n].0, steps[n].1, r);
    }
  }

  /** While sessions in use only end with their process, at most one handler per key runs at any moment. */
  lemma HandlersExcludeEachOther(steps: seq<(nat, Action)>, r: nat, q: nat)
    requires NoSessionLost(steps)
    requires var s := Run(Start, steps);
             && PhaseOf(s, r).Running? && PhaseOf(s, q).Running?
             && PhaseOf(s, r).key == PhaseOf(s, q).key
    ensures r == q
  {
    RunningSessionsAlive(steps, r);
    RunningSessionsAlive(steps, q);
    RunKeepsInv(steps);
  }

  /** An attempt with a live session is between lock and release. */
  ghost predicate SomebodyHolds(s: State, k: int)
  {
    exists r :: r in s.phases && Locked(s.phases[r]) && s.phases[r].key == k && s.phases[r].session !in s.dead
  }

  /** A time-out left the key locked on a session that is still open. */
  ghost predicate StuckOpen(s: State, k: int) { exists session :: session !in s.dead && StuckAt(s, k, session) > 0 }

  /** A key is taken exactly while an attempt holds it or a time-out has left it on an open connection. */
  lemma KeyTakenIff(steps: seq<(nat, Action)>, k: int)
    ensures var s := Run(Start, steps); k in s.locks <==> SomebodyHolds(s, k) || StuckOpen(s, k)
  {
    RunKeepsInv(steps);
    var s := Run(Start, steps);
    if k in s.locks && !SomebodyHolds(s, k) {
      assert !exists r :: HeldBy(s, k, r);
      assert StuckAt(s, k, s.locks[k].session) > 0;
    }
  }

  predicate NoTimeOut(steps: seq<(nat, Action)>)
  {
    forall i :: 0 <= i < |steps| ==> !steps[i].1.TryTimesOut? && !steps[i].1.UnlockTimesOut?
  }

  lemma {:induction false} NothingStuck(steps: seq<(nat, Action)>)
    requires NoTimeOut(steps)
    ensures Run(Start, steps).stuck == multiset{}
  {
    if steps != [] { NothingStuck(steps[..|steps| - 1]); }
  }

  /** Without time-outs no key leaks: it is taken exactly while an attempt holds it, whatever fails or crashes. */
  lemma NoKeyLeaks(steps: seq<(nat, Action)>, k: int)
    requires NoTimeOut(steps)
    ensures var s := Run(Start, steps); k in s.locks <==> SomebodyHolds(s, k)
  {
    KeyTakenIff(steps, k);
    NothingStuck(steps);
    assert forall session :: StuckAt(Run(Start, steps), k, session) == 0;
  }

  /** An attempt that was skipped, or never got an answer, never called the handler. */
  lemma SkippedNeverStarted(steps: seq<(nat, Action)>, r: nat)
    requires var p := PhaseOf(Run(Start, steps), r); p.Skipped? || p.Failed?
    ensures r !in Run(Start, steps).started
  {
    RunKeepsInv(steps);
  }

  lemma HolderSpared(s: State, r: nat, a: Action, k: int, holder: nat)
    requires Inv(s) && HeldBy(s, k, holder) && holder != r
    ensures k in Step(s, r, a).locks && Step(s, r, a).locks[k] == s.locks[k]
  {
    var session := s.locks[k].session;
    assert InUse(s, session);
    assert HasSession(PhaseOf(s, r)) ==> PhaseOf(s, r).session != session;
  }

  /** An attempt frees no key but its own: being skipped frees nothing, and a release spares every other holder. */
  lemma OnlyTheHolderFrees(steps: seq<(nat, Action)>, r: nat, a: Action, k: int, holder: nat)
    requires var s := Run(Start, steps); HeldBy(s, k, holder) && holder != r
    ensures var s := Run(Start, steps); k in Step(s, r, a).locks && Step(s, r, a).locks[k] == s.locks[k]
  {
    RunKeepsInv(steps);
    HolderSpared(Run(Start, steps), r, a, k, holder);
  }

  lemma RunSnoc(s: State, steps: seq<(nat, Action)>, r: nat, a: Action)
    ensures Run(s, steps + [(r, a)]) == Step(Run(s, steps), r, a)
  {
    assert (steps + [(r, a)])[..|steps|] == steps;
  }

  // ------------------------------------------------------------------ exactly when exclusion lasts

  predicate OthersOnly(steps: seq<(nat, Action)>, r: nat) { forall i :: 0 <= i < |steps| ==> steps[i].0 != r }

  ghost predicate Holds(s: State, r: nat)
  {
    Inv(s) && r in s.phases && Locked(s.phases[r]) && s.phases[r].session !in s.dead
  }

  lemma OtherSparesPlace(s: State, q: nat, a: Action, r: nat)
    requires Holds(s, r) && q != r
    ensures r in Step(s, q, a).phases && Step(s, q, a).phases[r] == s.phases[r]
    ensures s.phases[r].session !in Step(s, q, a).dead
  {
    assert HasSession(s.phases[r]);
  }

  lemma OtherSpares(s: State, q: nat, a: Action, r: nat)
    requires Holds(s, r) && q != r
    ensures Holds(Step(s, q, a), r) && Step(s, q, a).phases[r] == s.phases[r]
  {
    hide Step, Inv;
    StepKeepsInv(s, q, a);
    OtherSparesPlace(s, q, a, r);
  }

  /** An attempt past the lock of this key. */
  predicate LockedOn(s: State, q: nat, k: int) { Locked(PhaseOf(s, q)) && PhaseOf(s, q).key == k }

  predicate RunningOn(s: State, q: nat, k: int) { PhaseOf(s, q).Running? && PhaseOf(s, q).key == k }

  lemma NoNewHolder(s: State, d: nat, a: Action, r: nat, q: nat)
    requires Holds(s, r) && d != r && !LockedOn(s, q, s.phases[r].key)
    ensures !LockedOn(Step(s, d, a), q, s.phases[r].key)
  {
    assert s.locks[s.phases[r].key].session == s.phases[r].session;
  }

  /** While the handler of r runs, others do what they like, and r may lose its session. */
  predicate Meanwhile(steps: seq<(nat, Action)>, r: nat)
  {
    forall i :: 0 <= i < |steps| ==> steps[i].0 != r || steps[i].1.LoseSession?
  }

  /** At some point of a continuation r's session was dead, and q was not past the lock yet. */
  ghost predicate DiedFirst(s: State, more: seq<(nat, Action)>, r: nat, q: nat, k: int)
  {
    exists j :: 0 <= j <= |more| && DeadBy(s, more, j, r) && !LockedOn(Run(s, more[..j]), q, k)
  }

  predicate DeadBy(s: State, more: seq<(nat, Action)>, j: nat, r: nat)
    requires j <= |more|
  {
    var t := Run(s, more[..j]); HasSession(PhaseOf(t, r)) && PhaseOf(t, r).session in t.dead
  }

  lemma RunnerStays(s: State, d: nat, a: Action, r: nat)
    requires PhaseOf(s, r).Running? && (d != r || a.LoseSession?)
    ensures PhaseOf(Step(s, d, a), r) == PhaseOf(s, r)
  {}

  lemma {:induction false} RunnerStaysOn(s: State, more: seq<(nat, Action)>, r: nat)
    requires Inv(s) && PhaseOf(s, r).Running? && Meanwhile(more, r)
    ensures Inv(Run(s, more)) && PhaseOf(Run(s, more), r) == PhaseOf(s, r)
  {
    if more != [] {
      var n := |more| - 1;
      RunnerStaysOn(s, more[..n], r);
      StepKeepsInv(Run(s, more[..n]), more[n].0, more[n].1);
      RunnerStays(Run(s, more[..n]), more[n].0, more[n].1, r);
    }
  }

  lemma DiedFirstEarlier(s: State, more: seq<(nat, Action)>, n: nat, r: nat, q: nat, k: int)
    requires n <= |more| && DiedFirst(s, more[..n], r, q, k)
    ensures DiedFirst(s, more, r, q, k)
  {
    var j :| 0 <= j <= n && DeadBy(s, more[..n], j, r) && !LockedOn(Run(s, more[..n][..j]), q, k);
    assert more[..n][..j] == more[..j];
  }

  /** Whoever gets past the lock of a running handler's key does so after that handler's session has died. */
  lemma {:induction false} PastTheLockAfterDeath(s: State, more: seq<(nat, Action)>, r: nat, q: nat, k: int)
    requires Inv(s) && RunningOn(s, r, k) && Meanwhile(more, r)
    requires !LockedOn(s, q, k) && LockedOn(Run(s, more), q, k)
    ensures DiedFirst(s, more, r, q, k)
  {
    var n := |more| - 1;
    var t := Run(s, more[..n]);
    RunnerStaysOn(s, more[..n], r);
    if LockedOn(t, q, k) {
      PastTheLockAfterDeath(s, more[..n], r, q, k);
      DiedFirstEarlier(s, more, n, r, q, k);
    } else if PhaseOf(t, r).session !in t.dead {
      NoNewHolderUnlessLost(t, more[n].0, more[n].1, r, q);
    } else {
      assert DeadBy(s, more, n, r);
    }
  }

  lemma NoNewHolderUnlessLost(s: State, d: nat, a: Action, r: nat, q: nat)
    requires Holds(s, r) && (d != r || a.LoseSession?) && !LockedOn(s, q, s.phases[r].key)
    ensures !LockedOn(Step(s, d, a), q, s.phases[r].key)
  {
    if d != r { NoNewHolder(s, d, a, r, q); }
  }

  /** Without r's doing, an attempt that is not past the lock yet can come to run beside r's handler. */
  ghost predicate CanBeJoined(s: State, r: nat, k: int)
  {
    exists more, q :: OthersOnly(more, r) && !LockedOn(s, q, k) && RunningOn(Run(s, more), q, k)
  }

  /** The sessions there have been. */
  function Sessions(s: State): set<nat>
  {
    s.dead + set r | r in s.phases && HasSession(s.phases[r]) :: s.phases[r].session
  }

  lemma RunOne(s: State, r: nat, a: Action)
    ensures Run(s, [(r, a)]) == Step(s, r, a)
  {
    RunSnoc(s, [], r, a);
    assert [] + [(r, a)] == [(r, a)];
    assert Run(s, []) == s;
  }

  lemma StepsBeside(s: State, k: int, q: nat, session: nat)
    requires k !in s.locks && q !in s.phases && session !in Sessions(s)
    ensures RunningOn(Step(Step(Step(s, q, Connect(k, session)), q, TryLock), q, StartHandler), q, k)
  {
    assert !InUse(s, session);
    var connected := Step(s, q, Connect(k, session));
    assert connected == Move(s, q, Connected(k, session));
    var holding := Step(connected, q, TryLock);
    assert PhaseOf(holding, q) == Holding(k, session);
  }

  /** A free key is taken by a new attempt on a new connection, which starts the handler. */
  lemma StartsBeside(s: State, k: int, q: nat, session: nat)
    requires k !in s.locks && q !in s.phases && session !in Sessions(s)
    ensures RunningOn(Run(s, [(q, Connect(k, session)), (q, TryLock), (q, StartHandler)]), q, k)
  {
    hide Step;
    StepsBeside(s, k, q, session);
    RunOne(s, q, Connect(k, session));
    RunSnoc(s, [(q, Connect(k, session))], q, TryLock);
    RunSnoc(s, [(q, Connect(k, session)), (q, TryLock)], q, StartHandler);
    assert [(q, Connect(k, session)), (q, TryLock)] == [(q, Connect(k, session))] + [(q, TryLock)];
    assert [(q, Connect(k, session)), (q, TryLock), (q, StartHandler)]
        == [(q, Connect(k, session)), (q, TryLock)] + [(q, StartHandler)];
  }

  lemma {:induction false} RunJoin(s: State, a: seq<(nat, Action)>, b: seq<(nat, Action)>)
    ensures Run(s, a + b) == Run(Run(s, a), b)
  {
    hide Step;
    if b == [] {
      assert a + b == a;
    } else {
      var n := |b| - 1;
      RunJoin(s, a, b[..n]);
      RunSnoc(s, a + b[..n], b[n].0, b[n].1);
      assert a + b[..n] + [(b[n].0, b[n].1)] == a + b;
    }
  }

  /** One step, by its owner or by the pool, ends the session that holds a key. */
  lemma KeyCanBeFreed(s: State, k: int, r: nat, other: nat) returns (d: nat, a: Action)
    requires Inv(s) && k in s.locks && PhaseOf(s, r).Running? && PhaseOf(s, r).session in s.dead
    requires other !in s.phases
    ensures d != r && k !in Step(s, d, a).locks && Step(s, d, a).phases.Keys == s.phases.Keys
  {
    var session := s.locks[k].session;
    if InUse(s, session) {
      d :| d in s.phases && HasSession(s.phases[d]) && s.phases[d].session == session;
      a := Crash;
    } else {
      d, a := other, CloseIdle(session);
    }
  }

  /** Once the handler's session is gone, a continuation starts a second handler under its key. */
  lemma DeadSessionLetsIn(s: State, r: nat, k: int)
    requires Inv(s) && RunningOn(s, r, k) && PhaseOf(s, r).session in s.dead
    ensures CanBeJoined(s, r, k)
  {
    var q := FreshNumber(s.phases.Keys);
    var free, freeing: seq<(nat, Action)> := s, [];
    if k in s.locks {
      var d, a := KeyCanBeFreed(s, k, r, q);
      StepKeepsInv(s, d, a);
      RunOne(s, d, a);
      free, freeing := Step(s, d, a), [(d, a)];
    } else {
      assert Run(s, []) == s;
    }
    var session := FreshNumber(Sessions(free));
    StartsBeside(free, k, q, session);
    var starting := [(q, Connect(k, session)), (q, TryLock), (q, StartHandler)];
    RunJoin(s, freeing, starting);
    assert OthersOnly(freeing + starting, r);
    assert RunningOn(Run(s, freeing + starting), q, k) && !LockedOn(s, q, k);
  }

  lemma OthersOnlyIsMeanwhile(s: State, more: seq<(nat, Action)>, r: nat)
    requires Inv(s) && PhaseOf(s, r).Running? && OthersOnly(more, r) && PhaseOf(s, r).session !in s.dead
    ensures Meanwhile(more, r) && forall j :: 0 <= j <= |more| ==> !DeadBy(s, more, j, r)
  {
    forall j | 0 <= j <= |more| ensures !DeadBy(s, more, j, r) { OthersSpareSession(s, more[..j], r); }
  }

  lemma {:induction false} OthersSpareSession(s: State, more: seq<(nat, Action)>, r: nat)
    requires Holds(s, r) && OthersOnly(more, r)
    ensures Holds(Run(s, more), r) && Run(s, more).phases[r] == s.phases[r]
  {
    if more != [] {
      var n := |more| - 1;
      OthersSpareSession(s, more[..n], r);
      OtherSpares(Run(s, more[..n]), more[n].0, more[n].1, r);
    }
  }

  /**
   In every reachable state, and whatever then happens while r's handler runs, the loss of its session included:
   an attempt that is not past the lock yet comes to run under its key only after r's session has died.
   */
  lemma JoinedOnlyAfterDeath(steps: seq<(nat, Action)>, more: seq<(nat, Action)>, r: nat, q: nat, k: int)
    requires RunningOn(Run(Start, steps), r, k) && !LockedOn(Run(Start, steps), q, k) && Meanwhile(more, r)
    requires RunningOn(Run(Run(Start, steps), more), q, k)
    ensures DiedFirst(Run(Start, steps), more, r, q, k)
    ensures var t := Run(Run(Start, steps), more); RunningOn(t, r, k) && PhaseOf(t, r).session in t.dead
  {
    RunKeepsInv(steps);
    PastTheLockAfterDeath(Run(Start, steps), more, r, q, k);
    DeathIsForGood(Run(Start, steps), more, r, q, k);
  }

  lemma DeathIsForGood(s: State, more: seq<(nat, Action)>, r: nat, q: nat, k: int)
    requires Inv(s) && RunningOn(s, r, k) && Meanwhile(more, r) && DiedFirst(s, more, r, q, k)
    ensures var t := Run(s, more); RunningOn(t, r, k) && PhaseOf(t, r).session in t.dead
  {
    RunnerStaysOn(s, more, r);
    var j :| 0 <= j <= |more| && DeadBy(s, more, j, r) && !LockedOn(Run(s, more[..j]), q, k);
    RunnerStaysOn(s, more[..j], r);
    DeadGrows(s, more, j);
  }

  lemma StepKeepsDead(s: State, d: nat, a: Action)
    ensures s.dead <= Step(s, d, a).dead
  {}

  lemma {:induction false} DeadGrows(s: State, more: seq<(nat, Action)>, j: nat)
    requires j <= |more|
    ensures Run(s, more[..j]).dead <= Run(s, more).dead
    decreases |more|
  {
    if j == |more| {
      assert more[..j] == more;
    } else {
      var n := |more| - 1;
      assert more[..n][..j] == more[..j];
      DeadGrows(s, more[..n], j);
      StepKeepsDead(Run(s, more[..n]), more[n].0, more[n].1);
    }
  }

  /** And at every point of every run where it has died, and only there, others alone can bring that about. */
  lemma CanBeJoinedIffSessionDead(steps: seq<(nat, Action)>, r: nat, k: int)
    requires RunningOn(Run(Start, steps), r, k)
    ensures var s := Run(Start, steps); CanBeJoined(s, r, k) <==> PhaseOf(s, r).session in s.dead
  {
    RunKeepsInv(steps);
    var s := Run(Start, steps);
    if PhaseOf(s, r).session in s.dead {
      DeadSessionLetsIn(s, r, k);
    } else if CanBeJoined(s, r, k) {
      var more, q :| OthersOnly(more, r) && !LockedOn(s, q, k) && RunningOn(Run(s, more), q, k);
      OthersOnlyIsMeanwhile(s, more, r);
      PastTheLockAfterDeath(s, more, r, q, k);
    }
  }

  // ------------------------------------------------------------------ one attempt, as the programs run it

  function Calls(s: State, r: nat): nat { multiset(s.started)[r] }

  /** What an attempt past the lock finds unchanged: its place, its calls, and what is stuck on its session. */
  ghost predicate Undisturbed(s: State, t: State, r: nat)
  {
    && Inv(t) && PhaseOf(t, r) == PhaseOf(s, r) && Locked(PhaseOf(t, r)) && Calls(t, r) == Calls(s, r)
    && StuckAt(t, PhaseOf(t, r).key, PhaseOf(t, r).session) == StuckAt(s, PhaseOf(s, r).key, PhaseOf(s, r).session)
    && s.dead <= t.dead
  }

  lemma StepSparesStuck(s: State, d: nat, a: Action, r: nat)
    requires SessionsApart(s) && HasSession(PhaseOf(s, r)) && d != r
    ensures var p := PhaseOf(s, r); StuckAt(Step(s, d, a), p.key, p.session) == StuckAt(s, p.key, p.session)
  {
    if HasSession(PhaseOf(s, d)) { assert PhaseOf(s, d).session != PhaseOf(s, r).session; }
  }

  lemma StepSparesPlace(s: State, d: nat, a: Action, r: nat)
    requires d != r || (a.LoseSession? && HasSession(PhaseOf(s, r)))
    ensures PhaseOf(Step(s, d, a), r) == PhaseOf(s, r) && s.dead <= Step(s, d, a).dead
    ensures d == r ==> Step(s, d, a).stuck == s.stuck
  {}

  lemma StepSparesCalls(s: State, d: nat, a: Action, r: nat)
    requires d != r || a.LoseSession?
    ensures Calls(Step(s, d, a), r) == Calls(s, r)
  {
    assert Step(s, d, a).started == s.started || Step(s, d, a).started == s.started + [d];
  }

  lemma StepLeavesUndisturbed(s: State, d: nat, a: Action, r: nat)
    requires Inv(s) && Locked(PhaseOf(s, r)) && (d != r || a.LoseSession?)
    ensures Undisturbed(s, Step(s, d, a), r)
  {
    hide Step;
    StepKeepsInv(s, d, a);
    StepSparesPlace(s, d, a, r);
    StepSparesCalls(s, d, a, r);
    if d != r { StepSparesStuck(s, d, a, r); }
  }

  lemma {:induction false} MeanwhileLeavesUndisturbed(s: State, steps: seq<(nat, Action)>, r: nat)
    requires Inv(s) && Locked(PhaseOf(s, r)) && Meanwhile(steps, r)
    ensures Undisturbed(s, Run(s, steps), r)
  {
    if steps != [] {
      var n := |steps| - 1;
      MeanwhileLeavesUndisturbed(s, steps[..n], r);
      StepLeavesUndisturbed(Run(s, steps[..n]), steps[n].0, steps[n].1, r);
    }
  }

  /** A query is answered, or times out with its work done or not. */
  datatype QueryReply = Answered | TimedOut(done: bool)

  predicate Effective(reply: QueryReply) { reply.Answered? || reply.done }

  const NO_CONNECTION := "connection"
  const QUERY_FAILED := "query"
  const NO_HANDLER := "no handler registered for task"

  predicate FreeFor(s: State, session: nat) { session !in s.dead && !InUse(s, session) }

  /** The database, and every attempt connected to it. */
  class Database {
    var now: State

    constructor ()
      ensures now == Start
    {
      now := Start;
    }

    /** tryAcquireWorkerLock; the pool lends a connection nobody uses, or fails. */
    method TryAcquire(r: nat, key: int, session: Option<nat>, reply: QueryReply) returns (won: Result<bool, string>)
      requires Inv(now) && PhaseOf(now, r).Idle? && (session.Some? ==> FreeFor(now, session.value))
      modifies this
      ensures Inv(now) && now.started == old(now.started) && now.dead == old(now.dead)
      ensures session.None? ==> won == Err(NO_CONNECTION) && now.locks == old(now.locks) && now.stuck == old(now.stuck)
      ensures session.Some? && reply.Answered? ==>
                && won.Ok? && now.stuck == old(now.stuck)
                && (won.value <==> key !in old(now.locks) || old(now.locks)[key].session == session.value)
                && PhaseOf(now, r) == (if won.value then Holding(key, session.value) else Skipped(key))
                && (!won.value ==> now.locks == old(now.locks))
                && (won.value && key !in old(now.locks) ==>
                      now.locks == old(now.locks)[key := Lock(session.value, 1)])
                && (won.value && key in old(now.locks) ==>
                      now.locks == old(now.locks)[key := Lock(session.value, old(now.locks)[key].count + 1)])
      ensures session.Some? && reply.TimedOut? ==>
                && won == Err(QUERY_FAILED)
                && (if reply.done && (key !in old(now.locks) || old(now.locks)[key].session == session.value)
                    then now.locks == Granted(old(now.locks), key, session.value)
                         && now.stuck == old(now.stuck) + multiset{(key, session.value)}
                    else now.locks == old(now.locks) && now.stuck == old(now.stuck))
    {
      if session.None? {
        StepKeepsInv(now, r, ConnectFails(key));
        now := Step(now, r, ConnectFails(key));
        return Err(NO_CONNECTION);
      }
      StepKeepsInv(now, r, Connect(key, session.value));
      now := Step(now, r, Connect(key, session.value));
      if reply.TimedOut? {
        StepKeepsInv(now, r, TryTimesOut(reply.done));
        now := Step(now, r, TryTimesOut(reply.done));
        return Err(QUERY_FAILED);
      }
      StepKeepsInv(now, r, TryLock);
      now := Step(now, r, TryLock);
      won := Ok(PhaseOf(now, r).Holding?);
    }

    /** The handler, with everything that happens while it runs. */
    method CallHandler(r: nat, during: seq<(nat, Action)>, ok: bool)
      requires Inv(now) && PhaseOf(now, r).Holding? && Meanwhile(during, r)
      modifies this
      ensures Inv(now) && old(now.dead) <= now.dead
      ensures PhaseOf(now, r) == Finishing(old(PhaseOf(now, r).key), old(PhaseOf(now, r).session), ok)
      ensures Calls(now, r) == old(Calls(now, r)) + 1
      ensures StuckAt(now, PhaseOf(now, r).key, PhaseOf(now, r).session)
              == old(StuckAt(now, PhaseOf(now, r).key, PhaseOf(now, r).session))
    {
      StepKeepsInv(now, r, StartHandler);
      now := Step(now, r, StartHandler);
      MeanwhileLeavesUndisturbed(now, during, r);
      now := Run(now, during);
      StepKeepsInv(now, r, EndHandler(ok));
      now := Step(now, r, EndHandler(ok));
    }

    /** The function that tryAcquireWorkerLock returns; it throws when its query does. */
    method Release(r: nat, reply: QueryReply) returns (ok: bool)
      requires Inv(now) && PhaseOf(now, r).Finishing?
      modifies this
      ensures Inv(now) && now.started == old(now.started) && now.dead == old(now.dead)
      ensures PhaseOf(now, r) == Done(old(PhaseOf(now, r).key), old(PhaseOf(now, r).ok))
      ensures var key, session := old(PhaseOf(now, r).key), old(PhaseOf(now, r).session);
              && (ok <==> reply.Answered? && session !in now.dead)
              && (Effective(reply) && old(StuckAt(now, key, session)) == 0 ==>
                    key in now.locks ==> now.locks[key].session != session)
              && (session !in now.dead && Effective(reply) && old(StuckAt(now, key, session)) == 0 ==>
                    key !in now.locks)
              && (session !in now.dead && !Effective(reply) ==> key in now.locks && now.locks == old(now.locks))
    {
      var p := PhaseOf(now, r);
      var a := if reply.Answered? then Action.Release else UnlockTimesOut(reply.done);
      StepKeepsInv(now, r, a);
      ghost var before := now;
      now := Step(now, r, a);
      ok := reply.Answered? && p.session !in now.dead;
      assert p.session in now.dead || Effective(reply) ==> now.stuck == before.stuck;
    }

    /** singleFlight, as the API's timers call it: `result` is what the handler comes to. */
    method SingleFlight(r: nat, key: int, session: Option<nat>, lock: QueryReply, during: seq<(nat, Action)>,
                        result: Result<int, string>, unlock: QueryReply)
      returns (out: Result<Option<int>, string>)
      requires Inv(now) && PhaseOf(now, r).Idle? && (session.Some? ==> FreeFor(now, session.value))
      requires Meanwhile(during, r)
      modifies this
      ensures Inv(now)
      ensures session.None? ==> out == Err(NO_CONNECTION) && now.started == old(now.started)
      ensures session.Some? && lock.TimedOut? ==> out == Err(QUERY_FAILED) && now.started == old(now.started)
      ensures out == Ok(None) <==>
          && session.Some? && lock.Answered?
          && key in old(now.locks) && old(now.locks)[key].session != session.value
      ensures out == Ok(None) ==> now.locks == old(now.locks) && now.started == old(now.started)
      ensures session.Some? && lock.Answered? && out != Ok(None) ==>
                && Calls(now, r) == 1
                && out == (if unlock.TimedOut? || session.value in now.dead then Err(QUERY_FAILED)
                           else if result.Ok? then Ok(Some(result.value))
                           else Err(result.error))
                && (session.value !in now.dead && (unlock.Answered? || unlock.done)
                      && old(StuckAt(now, key, session.value)) == 0 ==>
                      key !in now.locks)
    {
      assert r !in now.started;
      var won := TryAcquire(r, key, session, lock);
      if won.Err? { return Err(won.error); }
      if !won.value { return Ok(None); }
      CallHandler(r, during, result.Ok?);
      var released := Release(r, unlock);
      if !released { return Err(QUERY_FAILED); }
      match result {
        case Ok(n) => out := Ok(Some(n));
        case Err(e) => out := Err(e);
      }
    }
  }

  datatype Task = Task(id: string, lock: int)
  datatype RunRecord = RunRecord(ok: bool, skipped: bool, error: Option<string>)

  /** One worker process: the registered tasks, and what it remembers of each one's last run. */
  class Worker {
    const tasks: map<string, Task>
    const handlers: set<string>
    const db: Database
    var taskState: map<string, RunRecord>

    constructor (tasks: map<string, Task>, handlers: set<string>, db: Database)
      ensures this.tasks == tasks && this.handlers == handlers && this.db == db && taskState == map[]
    {
      this.tasks, this.handlers, this.db, taskState := tasks, handlers, db, map[];
    }

    /**
     One delivery of a job; Ok(None) is a skip. A failed handler's error is rethrown, for the queue's retry policy.
     */
    method RunTask(name: string, r: nat, session: Option<nat>, lock: QueryReply, during: seq<(nat, Action)>,
                   result: Result<(), string>, unlock: QueryReply)
      returns (out: Result<Option<()>, string>)
      requires Inv(db.now) && PhaseOf(db.now, r).Idle? && (session.Some? ==> FreeFor(db.now, session.value))
      requires Meanwhile(during, r)
      modifies this, db
      ensures Inv(db.now)
      ensures name !in tasks || name !in handlers ==>
                out == Err(NO_HANDLER) && taskState == old(taskState) && db.now == old(db.now)
      ensures name in tasks && name in handlers && (session.None? || lock.TimedOut?) ==>
                && out == Err(if session.None? then NO_CONNECTION else QUERY_FAILED)
                && taskState == old(taskState) && db.now.started == old(db.now.started)
      ensures out == Ok(None) <==>
          && name in tasks && name in handlers && session.Some? && lock.Answered?
          && tasks[name].lock in old(db.now.locks)
          && old(db.now.locks)[tasks[name].lock].session != session.value
      ensures out == Ok(None) ==>
                && taskState == old(taskState)[tasks[name].id := RunRecord(true, true, None)]
                && db.now.locks == old(db.now.locks) && db.now.started == old(db.now.started)
      ensures name in tasks && name in handlers && session.Some? && lock.Answered? && out != Ok(None) ==>
                && Calls(db.now, r) == 1
                && out == (if unlock.TimedOut? || session.value in db.now.dead then Err(QUERY_FAILED)
                           else if result.Ok? then Ok(Some(()))
                           else Err(result.error))
                && taskState == old(taskState)[tasks[name].id :=
                     if result.Ok? then RunRecord(true, false, None) else RunRecord(false, false, Some(result.error))]
                && (session.value !in db.now.dead && (unlock.Answered? || unlock.done)
                      && old(StuckAt(db.now, tasks[name].lock, session.value)) == 0 ==>
                      tasks[name].lock !in db.now.locks)
    {
      if name !in tasks || name !in handlers {
        return Err(NO_HANDLER);
      }
      var task := tasks[name];
      assert r !in db.now.started;
      var won := db.TryAcquire(r, task.lock, session, lock);
      if won.Err? { return Err(won.error); }
      if !won.value {
        taskState := taskState[task.id := RunRecord(true, true, None)];
        return Ok(None);
      }
      db.CallHandler(r, during, result.Ok?);
      match result {
        case Ok(_) =>
          taskState := taskState[task.id := RunRecord(true, false, None)];
        case Err(e) =>
          taskState := taskState[task.id := RunRecord(false, false, Some(e))];
      }
      var released := db.Release(r, unlock);
      if !released { return Err(QUERY_FAILED); }
      match result {
        case Ok(_) => out := Ok(Some(()));
        case Err(e) => out := Err(e);
      }
    }
  }
}
