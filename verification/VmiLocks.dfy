/** Reference-counted per-VMI mutexes: threads that interleave at every lock operation. */
module VmiLocks {
  import opened AttachmentTypes

  type Key = string
  type Tid = nat
  type Mutex = nat

  /** The counting done under the table's own mutex. */
  function Acquired(counts: map<Key, int>, k: Key): map<Key, int> {
    counts[k := (if k in counts then counts[k] else 0) + 1]
  }

  function Released(counts: map<Key, int>, k: Key): map<Key, int> {
    if k !in counts then counts
    else if counts[k] - 1 <= 0 then counts - {k}
    else counts[k := counts[k] - 1]
  }

  /** Where a thread stands in LockVMI and in the unlock function it returns. */
  datatype Pc =
    | Outside
    | WantTable(key: Key)               // before g.mu.Lock in getOrCreateLock
    | InGet(key: Key)                   // holds g.mu, entry not yet touched
    | GotLock(key: Key, lock: Mutex)    // holds g.mu, has its lock object
    | WaitLock(key: Key, lock: Mutex)   // before lock.mu.Lock
    | Inside(key: Key, lock: Mutex)     // holds the VMI mutex
    | WantRelease(key: Key)             // mutex unlocked, before g.mu.Lock in releaseLock
    | InRelease(key: Key)               // holds g.mu, count not yet lowered
    | LeaveTable                        // holds g.mu, about to release it

  datatype State = State(
    tableHolder: Option<Tid>,
    objects: map<Key, Mutex>,
    counts: map<Key, int>,
    holders: map<Mutex, Tid>,
    next: Mutex,
    pcs: map<Tid, Pc>)
  {
    function At(t: Tid): Pc {
      if t in pcs then pcs[t] else Outside
    }
  }

  const Init := State(None, map[], map[], map[], 0, map[])

  predicate HoldsTable(pc: Pc) {
    pc.InGet? || pc.GotLock? || pc.InRelease? || pc.LeaveTable?
  }

  /** Between the increment and the decrement of the count for `k`. */
  predicate Counted(pc: Pc, k: Key) {
    (pc.GotLock? || pc.WaitLock? || pc.Inside? || pc.WantRelease? || pc.InRelease?) && pc.key == k
  }

  predicate HasObject(pc: Pc) {
    pc.GotLock? || pc.WaitLock? || pc.Inside?
  }

  /** The thread is not blocked. */
  predicate Enabled(s: State, t: Tid) {
    match s.At(t)
    case WantTable(_) => s.tableHolder.None?
    case WantRelease(_) => s.tableHolder.None?
    case WaitLock(_, m) => m !in s.holders
    case _ => true
  }

  /** One step of thread `t`; a thread outside starts a LockVMI call for key `k`. */
  function Next(s: State, t: Tid, k: Key): State
    requires Enabled(s, t)
  {
    match s.At(t)
    case Outside => s.(pcs := s.pcs[t := WantTable(k)])
    case WantTable(key) => s.(tableHolder := Some(t), pcs := s.pcs[t := InGet(key)])
    case InGet(key) =>
      var m := if key in s.objects then s.objects[key] else s.next;
      s.(objects := s.objects[key := m],
         next := if key in s.objects then s.next else s.next + 1,
         counts := Acquired(s.counts, key),
         pcs := s.pcs[t := GotLock(key, m)])
    case GotLock(key, m) => s.(tableHolder := None, pcs := s.pcs[t := WaitLock(key, m)])
    case WaitLock(key, m) => s.(holders := s.holders[m := t], pcs := s.pcs[t := Inside(key, m)])
    case Inside(key, m) => s.(holders := s.holders - {m}, pcs := s.pcs[t := WantRelease(key)])
    case WantRelease(key) => s.(tableHolder := Some(t), pcs := s.pcs[t := InRelease(key)])
    case InRelease(key) =>
      var counts := Released(s.counts, key);
      s.(counts := counts,
         objects := map x | x in s.objects && x in counts :: s.objects[x],
         pcs := s.pcs[t := LeaveTable])
    case LeaveTable => s.(tableHolder := None, pcs := s.pcs[t := Outside])
  }

  // ---- the invariant ----

  ghost function Users(s: State, k: Key): set<Tid> {
    set t | t in s.pcs && Counted(s.pcs[t], k)
  }

  /** The table mutex is where the program counters say it is. */
  ghost predicate TableInv(s: State) {
    forall t: Tid :: s.tableHolder == Some(t) <==> HoldsTable(s.At(t))
  }

  /** Entries exist exactly for keys in use, count their users, and are what every user holds. */
  ghost predicate CountInv(s: State) {
    && (forall k :: EntryOk(s, k))
    && (forall t: Tid :: HasObject(s.At(t)) ==> s.At(t).key in s.objects && s.objects[s.At(t).key] == s.At(t).lock)
  }

  /** No object serves two keys, and a new one is new. */
  ghost predicate ObjectInv(s: State) {
    && (forall k :: k in s.objects ==> s.objects[k] < s.next)
    && (forall k, h :: k in s.objects && h in s.objects && s.objects[k] == s.objects[h] ==> k == h)
  }

  /** A mutex is held exactly by the thread inside with it. */
  ghost predicate HolderInv(s: State) {
    && (forall m :: m in s.holders ==> s.At(s.holders[m]).Inside? && s.At(s.holders[m]).lock == m)
    && (forall t: Tid :: s.At(t).Inside? ==> s.At(t).lock in s.holders && s.holders[s.At(t).lock] == t)
  }

  ghost predicate Inv(s: State) {
    TableInv(s) && CountInv(s) && ObjectInv(s) && HolderInv(s)
  }

  /** How one thread's move changes the users of a key. */
  lemma UsersMoved(s: State, t: Tid, pc: Pc, k: Key)
    ensures var after := s.(pcs := s.pcs[t := pc]);
            && (t in Users(s, k) <==> Counted(s.At(t), k))
            && Users(after, k) == (if Counted(pc, k) then Users(s, k) + {t} else Users(s, k) - {t})
            && |Users(after, k)|
                 == |Users(s, k)| + (if Counted(pc, k) then 1 else 0) - (if Counted(s.At(t), k) then 1 else 0)
  {
    var after := s.(pcs := s.pcs[t := pc]);
    assert Users(after, k) == (if Counted(pc, k) then Users(s, k) + {t} else Users(s, k) - {t});
  }

  lemma StepTable(s: State, t: Tid, k: Key)
    requires Inv(s) && Enabled(s, t)
    ensures TableInv(Next(s, t, k))
  {
    var s' := Next(s, t, k);
    assert forall u: Tid :: u != t ==> s'.At(u) == s.At(u);
    assert HoldsTable(s.At(t)) <==> s.tableHolder == Some(t);
  }

  lemma StepObjects(s: State, t: Tid, k: Key)
    requires Enabled(s, t) && ObjectInv(s)
    ensures ObjectInv(Next(s, t, k))
  {}

  lemma StepHolders(s: State, t: Tid, k: Key)
    requires Enabled(s, t) && HolderInv(s)
    ensures HolderInv(Next(s, t, k))
  {
    var s' := Next(s, t, k);
    assert forall u: Tid :: u != t ==> s'.At(u) == s.At(u);
  }

  /** An entry that agrees with its users. */
  ghost predicate EntryOk(s: State, x: Key) {
    && (x in s.counts <==> Users(s, x) != {})
    && (x in s.counts ==> s.counts[x] == |Users(s, x)|)
    && (x in s.objects <==> x in s.counts)
  }

  lemma GetKeepsEntry(s: State, t: Tid, k: Key, x: Key)
    requires s.At(t).InGet? && EntryOk(s, x)
    ensures EntryOk(Next(s, t, k), x)
    ensures x in s.objects ==> x in Next(s, t, k).objects && Next(s, t, k).objects[x] == s.objects[x]
  {
    var s' := Next(s, t, k);
    UsersMoved(s, t, s'.At(t), x);
    assert Users(s', x) == Users(s.(pcs := s.pcs[t := s'.At(t)]), x);
  }

  lemma ReleaseKeepsEntry(s: State, t: Tid, k: Key, x: Key)
    requires s.At(t).InRelease? && EntryOk(s, x)
    ensures EntryOk(Next(s, t, k), x)
    ensures x in Next(s, t, k).objects ==> x in s.objects && Next(s, t, k).objects[x] == s.objects[x]
  {
    var s' := Next(s, t, k);
    if s.At(t).key == x {
      UsersMoved(s, t, LeaveTable, x);
      assert Users(s', x) == Users(s.(pcs := s.pcs[t := LeaveTable]), x);
      assert t in Users(s, x);
    } else {
      SameUsers(s, s', t, x);
    }
  }

  lemma SameUsers(s: State, s': State, t: Tid, x: Key)
    requires t in s'.pcs && s'.pcs == s.pcs[t := s'.pcs[t]] && (Counted(s'.At(t), x) <==> Counted(s.At(t), x))
    ensures Users(s', x) == Users(s, x)
  {}

  lemma OtherKeepsEntry(s: State, t: Tid, k: Key, x: Key)
    requires Enabled(s, t) && !s.At(t).InGet? && !s.At(t).InRelease? && EntryOk(s, x)
    ensures EntryOk(Next(s, t, k), x)
  {
    SameUsers(s, Next(s, t, k), t, x);
  }

  /** What happens to the entry of one key. */
  lemma StepEntry(s: State, t: Tid, k: Key, x: Key)
    requires Enabled(s, t) && EntryOk(s, x)
    ensures var s' := Next(s, t, k);
            EntryOk(s', x) && (x in s.objects && x in s'.objects ==> s'.objects[x] == s.objects[x])
  {
    if s.At(t).InGet? {
      GetKeepsEntry(s, t, k, x);
    } else if s.At(t).InRelease? {
      ReleaseKeepsEntry(s, t, k, x);
    } else {
      OtherKeepsEntry(s, t, k, x);
    }
  }

  lemma StepCounts(s: State, t: Tid, k: Key)
    requires Enabled(s, t) && CountInv(s)
    ensures CountInv(Next(s, t, k))
  {
    var s' := Next(s, t, k);
    forall x
      ensures EntryOk(s', x)
      ensures x in s.objects && x in s'.objects ==> s'.objects[x] == s.objects[x]
    {
      StepEntry(s, t, k, x);
    }
    forall u: Tid | HasObject(s'.At(u))
      ensures s'.At(u).key in s'.objects && s'.objects[s'.At(u).key] == s'.At(u).lock
    {
      var x := s'.At(u).key;
      assert u in Users(s', x);
      if u != t || !s.At(t).InGet? {
        assert HasObject(s.At(u)) && s.At(u).key == x && s.At(u).lock == s'.At(u).lock;
      }
    }
  }

  lemma StepInv(s: State, t: Tid, k: Key)
    requires Inv(s) && Enabled(s, t)
    ensures Inv(Next(s, t, k))
  {
    StepTable(s, t, k);
    StepObjects(s, t, k);
    StepHolders(s, t, k);
    StepCounts(s, t, k);
  }

  // ---- every interleaving ----

  datatype Move = Move(t: Tid, key: Key)

  /** The state after a schedule; a move of a blocked thread leaves the state alone. */
  function Run(moves: seq<Move>): State {
    if moves == [] then Init
    else
      var s, m := Run(moves[..|moves| - 1]), moves[|moves| - 1];
      if Enabled(s, m.t) then Next(s, m.t, m.key) else s
  }

  lemma {:induction false} RunInv(moves: seq<Move>)
    ensures Inv(Run(moves))
  {
    if moves == [] {
      assert forall k :: Users(Init, k) == {} && EntryOk(Init, k);
    } else {
      var s, m := Run(moves[..|moves| - 1]), moves[|moves| - 1];
      RunInv(moves[..|moves| - 1]);
      if Enabled(s, m.t) {
        StepInv(s, m.t, m.key);
      }
    }
  }

  /**
   * In every interleaving of any number of threads at most one is inside for a key, although lock objects are
   * deleted and made anew; each entry counts exactly the threads between get and release, all of them with that
   * very object; and a key nobody uses has no entry.
   */
  lemma MutualExclusion(moves: seq<Move>, k: Key)
    ensures var s := Run(moves);
            && (forall t: Tid, u: Tid ::
                  s.At(t).Inside? && s.At(u).Inside? && s.At(t).key == k && s.At(u).key == k ==> t == u)
            && (k in s.counts ==> s.counts[k] == |Users(s, k)| > 0)
            && (k !in s.objects <==> forall t: Tid :: !Counted(s.At(t), k))
            && (forall t: Tid :: HasObject(s.At(t)) && s.At(t).key == k ==>
                  k in s.objects && s.At(t).lock == s.objects[k])
  {
    RunInv(moves);
    var s := Run(moves);
    assert EntryOk(s, k);
    forall t: Tid, u: Tid | s.At(t).Inside? && s.At(u).Inside? && s.At(t).key == k && s.At(u).key == k ensures t == u {
      assert s.holders[s.At(t).lock] == t && s.holders[s.At(u).lock] == u;
    }
    if k !in s.objects {
      forall t: Tid ensures !Counted(s.At(t), k) {
        assert t !in Users(s, k);
      }
    } else {
      var t :| t in Users(s, k);
      assert Counted(s.At(t), k);
    }
  }
}
