/** Threads that take a VMI mutex, then volume mutexes inside manager calls, then the tables' own mutexes. */
module Deadlock {
  import opened AttachmentTypes
  import V = VmiLocks
  import M = ManagerThreads

  type Tid = nat

  /** Publish may hold a VMI mutex around its manager calls; Unpublish and the reconciler call the manager without. */
  datatype State = State(vmi: V.State, mgr: M.State)

  datatype Move = VmiMove(t: Tid, key: V.Key) | ManagerMove(t: Tid, op: M.Op)

  /** A thread is in at most one of the two layers at a time, and calls the manager inside a section or outside. */
  predicate Allowed(s: State, mv: Move) {
    match mv
    case VmiMove(t, _) => s.mgr.At(t).Idle? && V.Enabled(s.vmi, t)
    case ManagerMove(t, _) => (s.vmi.At(t).Outside? || s.vmi.At(t).Inside?) && M.Enabled(s.mgr, t)
  }

  function Next(s: State, mv: Move): State
    requires Allowed(s, mv)
  {
    match mv
    case VmiMove(t, key) => s.(vmi := V.Next(s.vmi, t, key))
    case ManagerMove(t, op) => s.(mgr := M.Next(s.mgr, t, op))
  }

  /** The state after a schedule; a move that is not allowed leaves the state alone. */
  function Run(moves: seq<Move>): State {
    if moves == [] then State(V.Init, M.Init)
    else
      var s, mv := Run(moves[..|moves| - 1]), moves[|moves| - 1];
      if Allowed(s, mv) then Next(s, mv) else s
  }

  ghost predicate Inv(s: State) {
    && V.Inv(s.vmi) && M.Inv(s.mgr)
    && forall t: Tid :: s.mgr.At(t).Idle? || s.vmi.At(t).Outside? || s.vmi.At(t).Inside?
  }

  lemma {:induction false} RunInv(moves: seq<Move>)
    ensures Inv(Run(moves))
  {
    if moves == [] {
      V.RunInv([]);
      M.RunInv([]);
    } else {
      var s, mv := Run(moves[..|moves| - 1]), moves[|moves| - 1];
      RunInv(moves[..|moves| - 1]);
      if Allowed(s, mv) {
        match mv
        case VmiMove(t, key) => V.StepInv(s.vmi, t, key);
        case ManagerMove(t, op) => M.StepInv(s.mgr, t, op);
      }
    }
  }

  /** In the middle of a section or of a manager call. */
  predicate Busy(s: State, t: Tid) {
    !s.vmi.At(t).Outside? || !s.mgr.At(t).Idle?
  }

  /** The manager's lock prefers writers: a reader also waits for a writer that is only waiting. */
  ghost predicate Ready(m: M.State, t: Tid) {
    M.Enabled(m, t) && (M.WantsRead(m.At(t)) ==> forall u: Tid :: !M.WantsWrite(m.At(u)))
  }

  /** The thread can take its own next step now: the manager call if it is in one, else the VMI section. */
  ghost predicate CanStep(s: State, t: Tid) {
    if s.mgr.At(t).Idle? then V.Enabled(s.vmi, t) else Ready(s.mgr, t)
  }

  // ---- who waits for whom ----

  /** Thread `t`, in the middle of a manager call, waits for thread `u` to give something up. */
  ghost predicate ManagerWaits(m: M.State, t: Tid, u: Tid) {
    var pc := m.At(t);
    || ((pc.LockTable? || pc.UnlockTable?) && m.tableHolder == Some(u))
    || (pc.LockWait? && pc.m in m.holders && m.holders[pc.m] == u)
    || (M.WantsRead(pc) && (m.writer == Some(u) || M.WantsWrite(m.At(u))))
    || (M.WantsWrite(pc) && (m.writer == Some(u) || u in m.readers))
  }

  ghost predicate VmiWaits(v: V.State, t: Tid, u: Tid) {
    var pc := v.At(t);
    || ((pc.WantTable? || pc.WantRelease?) && v.tableHolder == Some(u))
    || (pc.WaitLock? && pc.lock in v.holders && v.holders[pc.lock] == u)
  }

  ghost predicate WaitsFor(s: State, t: Tid, u: Tid) {
    if s.mgr.At(t).Idle? then VmiWaits(s.vmi, t, u) else ManagerWaits(s.mgr, t, u)
  }

  /** The order of the locks: a thread that waits for one stands above every thread that can hold it. */
  function Rank(s: State, t: Tid): nat {
    if s.mgr.At(t).Idle? then VmiRank(s.vmi.At(t)) else ManagerRank(s.mgr.At(t))
  }

  function VmiRank(pc: V.Pc): nat {
    if pc.WaitLock? then 4 else if pc.WantTable? || pc.WantRelease? then 1 else 0
  }

  function ManagerRank(pc: M.Pc): nat {
    if pc.LockWait? then 3
    else if M.WantsRead(pc) then 2
    else if M.WantsWrite(pc) || pc.LockTable? || pc.UnlockTable? then 1
    else 0
  }

  /** Every wait goes down, so waits never close a circle, whatever other threads do. */
  lemma WaitsGoDown(moves: seq<Move>, t: Tid, u: Tid)
    requires WaitsFor(Run(moves), t, u)
    ensures Busy(Run(moves), u) && Rank(Run(moves), u) < Rank(Run(moves), t) <= 4
  {
    RunInv(moves);
    WaitsDown(Run(moves), t, u);
  }

  lemma WaitsDown(s: State, t: Tid, u: Tid)
    requires Inv(s) && WaitsFor(s, t, u)
    ensures Busy(s, u) && Rank(s, u) < Rank(s, t)
  {
    if s.mgr.At(t).Idle? {
      VmiDown(s, t, u);
    } else {
      ManagerDown(s.mgr, t, u);
    }
  }

  lemma VmiDown(s: State, t: Tid, u: Tid)
    requires Inv(s) && s.mgr.At(t).Idle? && VmiWaits(s.vmi, t, u)
    ensures Busy(s, u) && Rank(s, u) < Rank(s, t)
  {
    assert s.mgr.At(u).Idle? || s.vmi.At(u).Outside? || s.vmi.At(u).Inside?;
    if s.vmi.At(t).WaitLock? {
      assert s.vmi.At(u).Inside?;
    } else {
      assert V.HoldsTable(s.vmi.At(u));
    }
  }

  lemma ManagerDown(m: M.State, t: Tid, u: Tid)
    requires M.LockingInv(m) && ManagerWaits(m, t, u)
    ensures !m.At(u).Idle? && ManagerRank(m.At(u)) < ManagerRank(m.At(t))
  {
    assert m.tableHolder == Some(u) <==> M.HoldsTable(m.At(u));
    assert m.writer == Some(u) <==> M.HoldsWrite(m.At(u));
    assert u in m.readers <==> M.HoldsRead(m.At(u));
    HolderRank(m.At(t), m.At(u));
  }

  /** What a thread that holds something can wait for. */
  lemma HolderRank(pc: M.Pc, to: M.Pc)
    requires || (pc.LockWait? && M.HoldsVolume(to))
             || (M.WantsRead(pc) && (M.HoldsWrite(to) || M.WantsWrite(to)))
             || (M.WantsWrite(pc) && (M.HoldsWrite(to) || M.HoldsRead(to)))
             || ((pc.LockTable? || pc.UnlockTable?) && M.HoldsTable(to))
    ensures !to.Idle? && ManagerRank(to) < ManagerRank(pc)
  {}

  /** A busy thread that cannot step waits for somebody. */
  lemma BlockedWaits(s: State, t: Tid) returns (u: Tid)
    requires Inv(s) && Busy(s, t) && !CanStep(s, t)
    ensures WaitsFor(s, t, u)
  {
    var pc := s.mgr.At(t);
    if pc.Idle? {
      u := if s.vmi.At(t).WaitLock? then s.vmi.holders[s.vmi.At(t).lock] else s.vmi.tableHolder.value;
    } else if pc.LockWait? {
      u := s.mgr.holders[pc.m];
    } else if pc.LockTable? || pc.UnlockTable? {
      u := s.mgr.tableHolder.value;
    } else if s.mgr.writer.Some? {
      u := s.mgr.writer.value;
    } else if M.WantsWrite(pc) {
      u :| u in s.mgr.readers;
    } else {
      u :| M.WantsWrite(s.mgr.At(u));
    }
  }

  /** From `t` at most `n` waits lead to a thread that can step. */
  ghost predicate LeadsToStep(s: State, t: Tid, n: nat)
    decreases n
  {
    Busy(s, t) && (CanStep(s, t) || (n > 0 && exists u: Tid :: WaitsFor(s, t, u) && LeadsToStep(s, u, n - 1)))
  }

  lemma {:induction false} WaitsEnd(s: State, t: Tid, n: nat)
    requires Inv(s) && Busy(s, t) && Rank(s, t) <= n
    ensures LeadsToStep(s, t, n)
    decreases n
  {
    if !CanStep(s, t) {
      var u := BlockedWaits(s, t);
      WaitsDown(s, t, u);
      WaitsEnd(s, u, n - 1);
    }
  }

  /** In a manager call three waits are enough: for the volume, for a waiting writer, and for who holds the lock. */
  lemma ManagerProgress(moves: seq<Move>, b: Tid)
    requires !Run(moves).mgr.At(b).Idle?
    ensures LeadsToStep(Run(moves), b, 3)
  {
    RunInv(moves);
    WaitsEnd(Run(moves), b, 3);
  }

  /**
   * Deadlock freedom for any number of threads: in every reachable state each thread in the middle of a section or call
   * can step, or waits, through at most four threads, for one that can; even with a manager's lock that holds readers
   * back for a waiting writer. So no group of threads is ever stuck beside others that run.
   */
  lemma NoDeadlock(moves: seq<Move>, b: Tid)
    requires Busy(Run(moves), b)
    ensures LeadsToStep(Run(moves), b, 4)
    ensures exists u: Tid :: Busy(Run(moves), u) && CanStep(Run(moves), u)
  {
    RunInv(moves);
    WaitsEnd(Run(moves), b, 4);
    ChainEnd(Run(moves), b, 4);
  }

  lemma {:induction false} ChainEnd(s: State, t: Tid, n: nat)
    requires LeadsToStep(s, t, n)
    ensures exists u: Tid :: Busy(s, u) && CanStep(s, u)
    decreases n
  {
    if !CanStep(s, t) {
      var u: Tid :| WaitsFor(s, t, u) && LeadsToStep(s, u, n - 1);
      ChainEnd(s, u, n - 1);
    }
  }
}
