/**
 * The manager's operations run by any number of threads that interleave at every lock operation and every access
 * to the maps. Track, AddSecondary, Untrack and RemoveNode hold the volume's own mutex around separate acquisitions
 * of the manager's lock; clearing a timestamp and the read-only methods take the manager's lock alone.
 */
module ManagerThreads {
  import opened AttachmentTypes
  import ManagerSpec

  type Tid = nat
  type Mutex = nat

  datatype Op =
    | OpTrack(vol: VolumeId, node: NodeId, mode: AccessMode, persisted: bool, at: Time)
    | OpAdd(vol: VolumeId, node: NodeId, timeout: int, at: Time)
    | OpUntrack(vol: VolumeId, at: Time)
    | OpRemove(vol: VolumeId, node: NodeId, at: Time)
    | OpClear(vol: VolumeId) // ClearDetachTimestamp
    | OpLook(vol: VolumeId)  // any method that only reads

  /** Operations without the volume's mutex. */
  predicate IsBrief(op: Op) { op.OpClear? || op.OpLook? }

  datatype Call = Call(op: Op, result: bool)

  // ---- the sequential meaning ----

  function Apply(op: Op, s: Tables): (Tables, bool) {
    match op
    case OpTrack(v, n, mode, persisted, at) => ManagerSpec.Track(s, v, n, mode, persisted, at)
    case OpAdd(v, n, timeout, at) => ManagerSpec.AddSecondary(s, v, n, timeout, at)
    case OpUntrack(v, at) => (ManagerSpec.Untrack(s, v, at), true)
    case OpRemove(v, n, at) => ManagerSpec.RemoveNode(s, v, n, at)
    case OpClear(v) => (ManagerSpec.ClearDetach(s, v), true)
    case OpLook(_) => (s, true)
  }

  /** The tables after the calls of a history, one after the other. */
  function Replay(done: seq<Call>): Tables {
    if done == [] then EmptyTables else Apply(done[|done| - 1].op, Replay(done[..|done| - 1])).0
  }

  /** Every call of the history returned what it returns when the calls run one after the other. */
  ghost predicate Sequential(done: seq<Call>) {
    forall i :: 0 <= i < |done| ==> done[i].result == Apply(done[i].op, Replay(done[..i])).1
  }

  /** What the two maps hold for one volume. */
  datatype Slot = Slot(entry: Option<Record>, detached: Option<Time>)

  function Get<T>(m: map<VolumeId, T>, v: VolumeId): Option<T> {
    if v in m then Some(m[v]) else None
  }

  function Put<T>(m: map<VolumeId, T>, v: VolumeId, x: Option<T>): map<VolumeId, T> {
    if x.Some? then m[v := x.value] else m - {v}
  }

  function SlotOf(s: Tables, v: VolumeId): Slot {
    Slot(Get(s.attachments, v), Get(s.detached, v))
  }

  /** An operation touches one slot and depends on nothing else. */
  function ApplySlot(op: Op, a: Slot): (Slot, bool) {
    var (t, r) := Apply(op, Tables(Put(map[], op.vol, a.entry), Put(map[], op.vol, a.detached), 0));
    (SlotOf(t, op.vol), r)
  }

  lemma ApplyIsLocal(op: Op, s: Tables)
    ensures var (t, r) := Apply(op, s);
            && (SlotOf(t, op.vol), r) == ApplySlot(op, SlotOf(s, op.vol))
            && forall v :: v != op.vol ==> SlotOf(t, v) == SlotOf(s, v)
  {}

  // ---- the program counters ----

  datatype Stage =
    | ReadWait | Reading | ReadDone(existed: bool) | Checked(existed: bool)
    | WriteWait | Writing | Written(result: bool)
    | Persisting | RollWait | Rolling | Rolled

  datatype Pc =
    | Idle
    | LockTable(op: Op)                                    // before vlm.mu.Lock in Lock
    | LockLookup(op: Op)                                   // holds vlm.mu
    | LockFound(op: Op, m: Mutex)                          // holds vlm.mu, has the volume's mutex
    | LockWait(op: Op, m: Mutex)                           // before lock.Lock
    | Work(op: Op, stage: Stage)                           // holds the volume's mutex
    | Brief(op: Op, stage: Stage)                          // an operation without it
    | UnlockTable(op: Op, result: bool)                    // before vlm.mu.Lock in Unlock
    | UnlockLookup(op: Op, result: bool)                   // holds vlm.mu
    | UnlockFound(op: Op, result: bool, was: Option<Mutex>) // holds vlm.mu
    | UnlockMutex(op: Op, result: bool, was: Option<Mutex>) // before lock.Unlock

  predicate HoldsTable(pc: Pc) {
    pc.LockLookup? || pc.LockFound? || pc.UnlockLookup? || pc.UnlockFound?
  }

  predicate HoldsVolume(pc: Pc) {
    pc.Work? || pc.UnlockTable? || pc.UnlockLookup? || pc.UnlockFound? || pc.UnlockMutex?
  }

  predicate AtWork(pc: Pc) { pc.Work? || pc.Brief? }

  predicate WantsRead(pc: Pc) { AtWork(pc) && pc.stage.ReadWait? }
  predicate HoldsRead(pc: Pc) { AtWork(pc) && (pc.stage.Reading? || pc.stage.ReadDone?) }
  predicate WantsWrite(pc: Pc) { AtWork(pc) && (pc.stage.WriteWait? || pc.stage.RollWait?) }
  predicate HoldsWrite(pc: Pc) {
    AtWork(pc) && (pc.stage.Writing? || pc.stage.Written? || pc.stage.Rolling? || pc.stage.Rolled?)
  }

  function First(op: Op): Stage {
    if op.OpTrack? || op.OpUntrack? || op.OpLook? then ReadWait else WriteWait
  }

  /** The one access under the write lock. AddSecondary and RemoveNode do all their work in it. */
  function WriteEffect(op: Op, a: Slot): (Slot, bool) {
    match op
    case OpTrack(_, n, mode, _, at) => (Slot(Some(ManagerSpec.NewRecord(n, mode, at)), a.detached), true)
    case OpUntrack(_, at) => (Slot(None, Some(at)), true)
    case _ => ApplySlot(op, a)
  }

  /** The next program counter and slot of a thread that holds the volume's mutex. */
  function WorkStep(op: Op, st: Stage, a: Slot): (Pc, Slot) {
    match st
    case ReadWait => (Work(op, Reading), a)
    case Reading => (Work(op, ReadDone(a.entry.Some?)), a)
    case ReadDone(existed) => (Work(op, Checked(existed)), a)
    case Checked(existed) =>
      if op.OpTrack? && existed then (UnlockTable(op, a.entry.Some? && a.entry.value.AttachedTo(op.node)), a)
      else if op.OpUntrack? && !existed then (UnlockTable(op, true), a)
      else (Work(op, WriteWait), a)
    case WriteWait => (Work(op, Writing), a)
    case Writing => var (b, r) := WriteEffect(op, a); (Work(op, Written(r)), b)
    case Written(r) => (if op.OpTrack? then Work(op, Persisting) else UnlockTable(op, r), a)
    case Persisting => (if op.OpTrack? && !op.persisted then Work(op, RollWait) else UnlockTable(op, true), a)
    case RollWait => (Work(op, Rolling), a)
    case Rolling => (Work(op, Rolled), Slot(None, a.detached))
    case Rolled => (UnlockTable(op, false), a)
  }

  /** The next program counter and slot of a thread that holds the manager's lock alone. */
  function BriefStep(op: Op, st: Stage, a: Slot): (Pc, Slot) {
    match st
    case ReadWait => (Brief(op, Reading), a)
    case Reading => (Brief(op, ReadDone(a.entry.Some?)), a)
    case WriteWait => (Brief(op, Writing), a)
    case Writing => (Brief(op, Written(true)), Slot(a.entry, None))
    case _ => (Idle, a)
  }

  /**
   * The result of the call, at the step that settles it: the read that finds nothing to do, the write that does all
   * of it, or the rollback of a Track whose annotation was not persisted.
   */
  function Decision(op: Op, st: Stage, a: Slot): Option<bool> {
    match st
    case Checked(existed) =>
      if op.OpTrack? && existed then Some(a.entry.Some? && a.entry.value.AttachedTo(op.node))
      else if op.OpUntrack? && !existed then Some(true)
      else None
    case Writing =>
      if op.OpClear? then Some(true)
      else if op.OpTrack? && !op.persisted then None
      else Some(WriteEffect(op, a).1)
    case Rolling => Some(false)
    case _ => None
  }

  /** A call that has returned: what it was, what it gave, and how long the history was when it began and ended. */
  datatype End = End(op: Op, result: bool, began: nat, at: nat)

  /**
   * `done` lists the calls in the order in which they were settled. `began` and `settled` give each thread the length
   * of the history when its call began and the place of the call in it; `ends` gives the returned calls by place.
   */
  datatype State = State(
    tableHolder: Option<Tid>,
    locks: map<VolumeId, Mutex>,
    next: Mutex,
    holders: map<Mutex, Tid>,
    writer: Option<Tid>,
    readers: set<Tid>,
    attachments: map<VolumeId, Record>,
    detached: map<VolumeId, Time>,
    pcs: map<Tid, Pc>,
    done: seq<Call>,
    began: map<Tid, nat>,
    settled: map<Tid, nat>,
    ends: map<nat, End>)
  {
    function At(t: Tid): Pc {
      if t in pcs then pcs[t] else Idle
    }

    function SlotAt(v: VolumeId): Slot {
      Slot(Get(attachments, v), Get(detached, v))
    }

    function BeganAt(t: Tid): nat {
      if t in began then began[t] else 0
    }

    function SettledAt(t: Tid): nat {
      if t in settled then settled[t] else 0
    }

    /** Nobody holds the mutex of volume `v`. */
    predicate Free(v: VolumeId) {
      v !in locks || locks[v] !in holders
    }
  }

  const Init := State(None, map[], 0, map[], None, {}, map[], map[], map[], [], map[], map[], map[])

  /** The thread is not blocked. */
  predicate Enabled(s: State, t: Tid) {
    var pc := s.At(t);
    && (pc.LockTable? || pc.UnlockTable? ==> s.tableHolder.None?)
    && (pc.LockWait? ==> pc.m !in s.holders)
    && (WantsRead(pc) ==> s.writer.None?)
    && (WantsWrite(pc) ==> s.writer.None? && s.readers == {})
  }

  /** One step of thread `t`; an idle thread starts the operation `op`. */
  function Next(s: State, t: Tid, op: Op): State
    requires Enabled(s, t)
  {
    var pc := s.At(t);
    if AtWork(pc) then
      var a := s.SlotAt(pc.op.vol);
      var (pc', b) := if pc.Work? then WorkStep(pc.op, pc.stage, a) else BriefStep(pc.op, pc.stage, a);
      NextWork(s, t, pc.op, pc.stage, pc', b, Decision(pc.op, pc.stage, a))
    else NextLock(s, t, op)
  }

  /** The next program counter in VolumeLockManager.Lock and Unlock. */
  function LockPc(locks: map<VolumeId, Mutex>, next: Mutex, pc: Pc, op: Op): Pc
    requires !AtWork(pc)
  {
    match pc
    case Idle => if IsBrief(op) then Brief(op, First(op)) else LockTable(op)
    case LockTable(o) => LockLookup(o)
    case LockLookup(o) => LockFound(o, if o.vol in locks then locks[o.vol] else next)
    case LockFound(o, m) => LockWait(o, m)
    case LockWait(o, m) => Work(o, First(o))
    case UnlockTable(o, r) => UnlockLookup(o, r)
    case UnlockLookup(o, r) => UnlockFound(o, r, Get(locks, o.vol))
    case UnlockFound(o, r, was) => UnlockMutex(o, r, was)
    case UnlockMutex(o, r, was) => Idle
  }

  /** The steps of Lock and Unlock, resource by resource; unlocking the volume's mutex ends the call. */
  function NextLock(s: State, t: Tid, op: Op): State
    requires !AtWork(s.At(t))
  {
    var pc := s.At(t);
    var create := pc.LockLookup? && pc.op.vol !in s.locks;
    s.(tableHolder :=
         if pc.LockTable? || pc.UnlockTable? then Some(t)
         else if pc.LockFound? || pc.UnlockFound? then None
         else s.tableHolder,
       locks := if create then s.locks[pc.op.vol := s.next] else s.locks,
       next := if create then s.next + 1 else s.next,
       holders :=
         if pc.LockWait? then s.holders[pc.m := t]
         else if pc.UnlockMutex? && pc.was.Some? then s.holders - {pc.was.value}
         else s.holders,
       pcs := s.pcs[t := LockPc(s.locks, s.next, pc, op)],
       began := if pc.Idle? then s.began[t := |s.done|] else s.began,
       ends :=
         if pc.UnlockMutex? then s.ends[s.SettledAt(t) := End(pc.op, pc.result, s.BeganAt(t), |s.done|)] else s.ends)
  }

  /**
   * A step at stage `st` that leads to `pc`, leaves the slot as `b` and settles the call if there is a decision `d`.
   * The manager's lock follows the stage. Giving it back ends a call that has it alone.
   */
  function NextWork(s: State, t: Tid, o: Op, st: Stage, pc: Pc, b: Slot, d: Option<bool>): State {
    s.(pcs := s.pcs[t := pc],
       attachments := Put(s.attachments, o.vol, b.entry),
       detached := Put(s.detached, o.vol, b.detached),
       readers := if st.ReadWait? then s.readers + {t} else if st.ReadDone? then s.readers - {t} else s.readers,
       writer :=
         if st.WriteWait? || st.RollWait? then Some(t) else if st.Written? || st.Rolled? then None else s.writer,
       done := if d.Some? then s.done + [Call(o, d.value)] else s.done,
       settled := if d.Some? then s.settled[t := |s.done|] else s.settled,
       ends :=
         if pc.Idle? && st.Written? then s.ends[s.SettledAt(t) := End(o, st.result, s.BeganAt(t), |s.done|)]
         else s.ends)
  }

  // ---- the invariant ----

  ghost predicate TableInv(s: State) {
    forall t: Tid :: s.tableHolder == Some(t) <==> HoldsTable(s.At(t))
  }

  /** The manager's lock is where the program counters say it is, and a writer excludes everyone. */
  ghost predicate ManagerInv(s: State) {
    && (forall t: Tid :: s.writer == Some(t) <==> HoldsWrite(s.At(t)))
    && (forall t: Tid :: t in s.readers <==> HoldsRead(s.At(t)))
    && (s.writer.Some? ==> s.readers == {})
  }

  /** Volume mutexes are never shared or replaced, and threads know the right one. */
  ghost predicate LocksInv(s: State) {
    && (forall v :: v in s.locks ==> s.locks[v] < s.next)
    && (forall v, w :: v in s.locks && w in s.locks && s.locks[v] == s.locks[w] ==> v == w)
    && (forall t: Tid :: s.At(t).LockFound? || s.At(t).LockWait? ==> Get(s.locks, s.At(t).op.vol) == Some(s.At(t).m))
    && (forall t: Tid :: s.At(t).UnlockFound? || s.At(t).UnlockMutex? ==>
          s.At(t).op.vol in s.locks && s.At(t).was == Some(s.locks[s.At(t).op.vol]))
  }

  /** A volume's mutex is held exactly by the thread that works on the volume. */
  ghost predicate HolderInv(s: State) {
    && (forall m :: m in s.holders ==>
          HoldsVolume(s.At(s.holders[m])) && Get(s.locks, s.At(s.holders[m]).op.vol) == Some(m))
    && (forall t: Tid :: HoldsVolume(s.At(t)) ==>
          var v := s.At(t).op.vol;
          v in s.locks && s.locks[v] in s.holders && s.holders[s.locks[v]] == t)
  }

  /** A Track whose annotation will not be persisted, between its write and its rollback. */
  predicate Dirty(pc: Pc) {
    && pc.Work? && pc.op.OpTrack? && !pc.op.persisted
    && (pc.stage.Written? || pc.stage.Persisting? || pc.stage.RollWait? || pc.stage.Rolling?)
  }

  /** What a thread with the volume's mutex has made of the entry, when the history has it as `h`. */
  ghost predicate Phase(pc: Pc, e: Option<Record>, h: Option<Record>)
    requires HoldsVolume(pc)
  {
    && !IsBrief(pc.op)
    && (if Dirty(pc) then h.None? && e == Some(ManagerSpec.NewRecord(pc.op.node, pc.op.mode, pc.op.at)) else e == h)
    && (pc.Work? ==>
          match pc.stage
          case ReadWait => pc.op.OpTrack? || pc.op.OpUntrack?
          case Reading => pc.op.OpTrack? || pc.op.OpUntrack?
          case ReadDone(existed) => (pc.op.OpTrack? || pc.op.OpUntrack?) && existed == e.Some?
          case Checked(existed) => (pc.op.OpTrack? || pc.op.OpUntrack?) && existed == e.Some?
          case WriteWait => (pc.op.OpTrack? ==> e.None?) && (pc.op.OpUntrack? ==> e.Some?)
          case Writing => (pc.op.OpTrack? ==> e.None?) && (pc.op.OpUntrack? ==> e.Some?)
          case Written(r) => pc.op.OpTrack? ==> r
          case Persisting => pc.op.OpTrack?
          case RollWait => pc.op.OpTrack? && !pc.op.persisted
          case Rolling => pc.op.OpTrack? && !pc.op.persisted
          case Rolled => pc.op.OpTrack? && !pc.op.persisted)
  }

  /** The phase of thread `t` against the tables `h` that the history leaves. */
  ghost predicate InPhase(s: State, h: Tables, t: Tid) {
    HoldsVolume(s.At(t)) ==> Phase(s.At(t), s.SlotAt(s.At(t).op.vol).entry, SlotOf(h, s.At(t).op.vol).entry)
  }

  /** Timestamps and the entries of free volumes are as in `h`; other entries are in a known phase. */
  ghost predicate DataOn(s: State, h: Tables) {
    && (forall v :: s.SlotAt(v).detached == SlotOf(h, v).detached)
    && (forall v :: s.Free(v) ==> s.SlotAt(v).entry == SlotOf(h, v).entry)
    && (forall t: Tid :: InPhase(s, h, t))
  }

  ghost predicate DataInv(s: State) {
    Sequential(s.done) && DataOn(s, Replay(s.done))
  }

  /** The call is in the history. */
  predicate Decided(pc: Pc) {
    || pc.UnlockTable? || pc.UnlockLookup? || pc.UnlockFound? || pc.UnlockMutex?
    || (AtWork(pc) && pc.stage.Written? && !(pc.op.OpTrack? && !pc.op.persisted))
    || (pc.Work? && pc.stage.Persisting? && pc.op.OpTrack? && pc.op.persisted)
    || (pc.Work? && pc.stage.Rolled?)
  }

  /** What the call is going to return. */
  function ResultOf(pc: Pc): bool
    requires Decided(pc)
  {
    if AtWork(pc) then (if pc.stage.Written? then pc.stage.result else pc.stage.Persisting?) else pc.result
  }

  /** A settled call has its own place in the history, from its beginning on, and no returned call has that place. */
  ghost predicate Placed(s: State, t: Tid) {
    && (!s.At(t).Idle? ==> s.BeganAt(t) <= |s.done|)
    && (Decided(s.At(t)) ==>
          && s.BeganAt(t) <= s.SettledAt(t) < |s.done| && s.SettledAt(t) !in s.ends
          && s.done[s.SettledAt(t)] == Call(s.At(t).op, ResultOf(s.At(t))))
  }

  /** A returned call stands in the history with its result, at a place between its beginning and its end. */
  ghost predicate Ended(s: State, i: nat) {
    i in s.ends ==>
      && i < |s.done| && s.done[i] == Call(s.ends[i].op, s.ends[i].result)
      && s.ends[i].began <= i < s.ends[i].at <= |s.done|
  }

  ghost predicate CallsInv(s: State) {
    && (forall t: Tid :: Placed(s, t))
    && (forall t: Tid, u: Tid :: t != u && Decided(s.At(t)) && Decided(s.At(u)) ==> s.SettledAt(t) != s.SettledAt(u))
    && (forall i: nat :: Ended(s, i))
  }

  /** The stages of an operation without the volume's mutex. */
  predicate BriefStage(op: Op, st: Stage) {
    || (op.OpClear? && (st.WriteWait? || st.Writing? || st == Written(true)))
    || (op.OpLook? && (st.ReadWait? || st.Reading? || st.ReadDone?))
  }

  /** Only operations with the volume's mutex go for it. */
  predicate Fits(pc: Pc) {
    if pc.Brief? then BriefStage(pc.op, pc.stage) else pc.Idle? || !IsBrief(pc.op)
  }

  ghost predicate Inv(s: State) {
    LockingInv(s) && DataInv(s) && CallsInv(s) && FitInv(s)
  }

  /** The slot in the history after a step with decision `d`. */
  function Settle(op: Op, a: Slot, d: Option<bool>): Slot {
    if d.Some? then ApplySlot(op, a).0 else a
  }

  /** Every step leads to the next phase, and the step that settles a call is the whole operation on the history. */
  lemma WorkPhase(op: Op, st: Stage, slot: Slot, a: Slot)
    requires Phase(Work(op, st), slot.entry, a.entry) && slot.detached == a.detached
    ensures var (pc, b) := WorkStep(op, st, slot);
            var d := Decision(op, st, slot);
            && HoldsVolume(pc) && pc.op == op
            && Phase(pc, b.entry, Settle(op, a, d).entry) && b.detached == Settle(op, a, d).detached
            && (d.Some? ==> d.value == ApplySlot(op, a).1)
  {}

  lemma WorkFollows(op: Op, st: Stage, slot: Slot)
    ensures Follows(Work(op, st), WorkStep(op, st, slot).0)
  {}

  /** A decision puts the call into the history with the result it is going to return; no other step changes that. */
  ghost predicate Tracks(was: Pc, pc: Pc, d: Option<bool>) {
    && (d.Some? ==> Decided(pc) && !was.Idle? && pc.op == was.op && ResultOf(pc) == d.value)
    && (d.None? && Decided(pc) ==> Decided(was) && pc.op == was.op && ResultOf(pc) == ResultOf(was))
  }

  lemma WorkDecides(op: Op, st: Stage, slot: Slot, h: Option<Record>)
    requires Phase(Work(op, st), slot.entry, h)
    ensures Tracks(Work(op, st), WorkStep(op, st, slot).0, Decision(op, st, slot)) && !WorkStep(op, st, slot).0.Idle?
  {}

  lemma BriefPhase(op: Op, st: Stage, slot: Slot, a: Slot)
    requires BriefStage(op, st) && slot.detached == a.detached
    ensures var b := BriefStep(op, st, slot).1;
            var d := Decision(op, st, slot);
            && b.entry == slot.entry && Settle(op, a, d).entry == a.entry && b.detached == Settle(op, a, d).detached
            && (d.Some? ==> d.value == ApplySlot(op, a).1)
  {}

  lemma BriefDecides(op: Op, st: Stage, slot: Slot)
    requires BriefStage(op, st)
    ensures var pc := BriefStep(op, st, slot).0;
            && Follows(Brief(op, st), pc) && Fits(pc) && Tracks(Brief(op, st), pc, Decision(op, st, slot))
            && (pc.Idle? <==> st.Written? || st.ReadDone?) && (Decided(Brief(op, st)) <==> st.Written?)
            && (st.Written? ==> st.result && Decision(op, st, slot).None?)
  {}

  // ---- every step keeps the invariant ----

  /** Only thread `t` moved. */
  ghost predicate Moved(s: State, s': State, t: Tid) {
    t in s'.pcs && s'.pcs == s.pcs[t := s'.pcs[t]]
  }

  lemma OthersStay(s: State, s': State, t: Tid)
    requires Moved(s, s', t)
    ensures forall u: Tid :: u != t ==> s'.At(u) == s.At(u)
  {}

  /** A mutex whose holder moves in or out as its program counter does. */
  ghost predicate Handed(h: Option<Tid>, h': Option<Tid>, t: Tid, held: bool, held': bool) {
    || (h' == h && held' == held)
    || (h == None && h' == Some(t) && held')
    || (h == Some(t) && h' == None && !held')
  }

  lemma TableMoved(s: State, s': State, t: Tid)
    requires TableInv(s) && Moved(s, s', t)
    requires Handed(s.tableHolder, s'.tableHolder, t, HoldsTable(s.At(t)), HoldsTable(s'.At(t)))
    ensures TableInv(s')
  {
    OthersStay(s, s', t);
  }

  lemma ManagerMoved(s: State, s': State, t: Tid)
    requires ManagerInv(s) && Moved(s, s', t)
    requires Handed(s.writer, s'.writer, t, HoldsWrite(s.At(t)), HoldsWrite(s'.At(t)))
    requires s'.readers == if HoldsRead(s'.At(t)) then s.readers + {t} else s.readers - {t}
    requires s'.writer.Some? ==> s'.readers == {}
    ensures ManagerInv(s')
  {
    OthersStay(s, s', t);
  }

  /** A program counter that knows the right mutex. */
  ghost predicate Knows(locks: map<VolumeId, Mutex>, pc: Pc) {
    && (pc.LockFound? || pc.LockWait? ==> Get(locks, pc.op.vol) == Some(pc.m))
    && (pc.UnlockFound? || pc.UnlockMutex? ==> pc.was.Some? && Get(locks, pc.op.vol) == pc.was)
  }

  /** The table of mutexes only grows, and by new mutexes. */
  ghost predicate Grown(s: State, s': State) {
    || (s'.locks == s.locks && s'.next == s.next)
    || (exists v :: v !in s.locks && s'.locks == s.locks[v := s.next] && s'.next == s.next + 1)
  }

  lemma LocksMoved(s: State, s': State, t: Tid)
    requires LocksInv(s) && Moved(s, s', t) && Grown(s, s') && Knows(s'.locks, s'.At(t))
    ensures LocksInv(s')
  {
    OthersStay(s, s', t);
  }

  /** The thread that holds the mutex of its volume. */
  ghost predicate Owns(s: State, t: Tid) {
    HoldsVolume(s.At(t)) ==>
      var v := s.At(t).op.vol;
      v in s.locks && s.locks[v] in s.holders && s.holders[s.locks[v]] == t
  }

  lemma KeepVolume(s: State, s': State, t: Tid)
    requires HolderInv(s) && Moved(s, s', t) && Grown(s, s') && s'.holders == s.holders
    requires HoldsVolume(s'.At(t)) == HoldsVolume(s.At(t)) && (HoldsVolume(s.At(t)) ==> s'.At(t).op == s.At(t).op)
    ensures HolderInv(s')
  {
    OthersStay(s, s', t);
  }

  lemma TakeVolume(s: State, s': State, t: Tid, m: Mutex)
    requires HolderInv(s) && Moved(s, s', t) && s'.locks == s.locks && LocksInv(s)
    requires !HoldsVolume(s.At(t)) && HoldsVolume(s'.At(t)) && Get(s.locks, s'.At(t).op.vol) == Some(m)
    requires m !in s.holders && s'.holders == s.holders[m := t]
    ensures HolderInv(s')
  {
    OthersStay(s, s', t);
    forall u: Tid | u != t ensures Owns(s', u) {
      assert Owns(s, u);
    }
    assert forall x :: x in s.holders ==> s.holders[x] != t;
  }

  lemma LeaveVolume(s: State, s': State, t: Tid, m: Mutex)
    requires HolderInv(s) && Moved(s, s', t) && s'.locks == s.locks && LocksInv(s)
    requires HoldsVolume(s.At(t)) && !HoldsVolume(s'.At(t)) && Get(s.locks, s.At(t).op.vol) == Some(m)
    requires s'.holders == s.holders - {m}
    ensures HolderInv(s')
  {
    OthersStay(s, s', t);
    assert Owns(s, t);
    forall u: Tid | u != t ensures Owns(s', u) {
      assert Owns(s, u);
    }
    assert forall x :: x in s'.holders ==> s.holders[x] != t;
  }

  ghost predicate LockingInv(s: State) {
    TableInv(s) && ManagerInv(s) && LocksInv(s) && HolderInv(s)
  }

  lemma LockKeepsTable(s: State, t: Tid, op: Op)
    requires TableInv(s) && Enabled(s, t) && !AtWork(s.At(t))
    ensures TableInv(NextLock(s, t, op))
  {
    assert HoldsTable(s.At(t)) <==> s.tableHolder == Some(t);
    TableMoved(s, NextLock(s, t, op), t);
  }

  lemma LockKeepsManager(s: State, t: Tid, op: Op)
    requires ManagerInv(s) && !AtWork(s.At(t))
    ensures ManagerInv(NextLock(s, t, op))
  {
    assert HoldsRead(s.At(t)) <==> t in s.readers;
    ManagerMoved(s, NextLock(s, t, op), t);
  }

  lemma LockKeepsLocks(s: State, t: Tid, op: Op)
    requires LocksInv(s) && Owns(s, t) && !AtWork(s.At(t))
    ensures LocksInv(NextLock(s, t, op)) && Grown(s, NextLock(s, t, op))
  {
    assert Knows(s.locks, s.At(t));
    LocksMoved(s, NextLock(s, t, op), t);
  }

  lemma LockKeepsHolders(s: State, t: Tid, op: Op)
    requires LocksInv(s) && HolderInv(s) && Enabled(s, t) && !AtWork(s.At(t))
    ensures HolderInv(NextLock(s, t, op))
  {
    var pc, s' := s.At(t), NextLock(s, t, op);
    assert Knows(s.locks, pc) && Owns(s, t);
    if pc.LockWait? {
      TakeVolume(s, s', t, pc.m);
    } else if pc.UnlockMutex? {
      LeaveVolume(s, s', t, pc.was.value);
    } else {
      LockKeepsLocks(s, t, op);
      KeepVolume(s, s', t);
    }
  }

  lemma LockKeepsLocking(s: State, t: Tid, op: Op)
    requires LockingInv(s) && Enabled(s, t) && !AtWork(s.At(t))
    ensures LockingInv(NextLock(s, t, op))
  {
    LockKeepsTable(s, t, op);
    LockKeepsManager(s, t, op);
    assert Owns(s, t);
    LockKeepsLocks(s, t, op);
    LockKeepsHolders(s, t, op);
  }

  /** Where a thread at work can go: it keeps the volume's mutex or does without, and the manager's lock follows. */
  ghost predicate Follows(was: Pc, pc: Pc)
    requires AtWork(was)
  {
    && HoldsVolume(pc) == HoldsVolume(was) && (HoldsVolume(was) ==> pc.op == was.op)
    && !HoldsTable(pc) && !pc.UnlockMutex? && !pc.LockWait?
    && (HoldsRead(pc) <==> was.stage.ReadWait? || was.stage.Reading?)
    && (HoldsWrite(pc) <==> was.stage.WriteWait? || was.stage.Writing? || was.stage.RollWait? || was.stage.Rolling?)
  }

  lemma WorkKeepsLocking(s: State, s': State, t: Tid, pc: Pc, b: Slot, d: Option<bool>)
    requires LockingInv(s) && Enabled(s, t) && AtWork(s.At(t)) && Follows(s.At(t), pc)
    requires s' == NextWork(s, t, s.At(t).op, s.At(t).stage, pc, b, d)
    ensures LockingInv(s')
  {
    assert HoldsTable(s.At(t)) <==> s.tableHolder == Some(t);
    assert HoldsWrite(s.At(t)) <==> s.writer == Some(t);
    assert HoldsRead(s.At(t)) <==> t in s.readers;
    assert Owns(s, t);
    TableMoved(s, s', t);
    ManagerMoved(s, s', t);
    LocksMoved(s, s', t);
    KeepVolume(s, s', t);
  }

  // ---- the maps follow the history ----

  /** Nothing happens to volume `x` but perhaps to its timestamp, and it does not become free. */
  ghost predicate Kept(s: State, s': State, h: Tables, h': Tables, x: VolumeId) {
    s'.SlotAt(x).entry == s.SlotAt(x).entry && SlotOf(h', x).entry == SlotOf(h, x).entry && (s'.Free(x) ==> s.Free(x))
  }

  /** A step of thread `t`, which may do as it likes with the volume whose mutex it holds. */
  lemma DataStep(s: State, s': State, t: Tid, h: Tables, h': Tables)
    requires DataOn(s, h) && HolderInv(s) && Moved(s, s', t) && InPhase(s', h', t)
    requires forall x :: s'.SlotAt(x).detached == SlotOf(h', x).detached
    requires forall x :: (HoldsVolume(s.At(t)) && s.At(t).op.vol == x) || Kept(s, s', h, h', x)
    requires HoldsVolume(s.At(t)) && s'.Free(s.At(t).op.vol) ==>
               s'.SlotAt(s.At(t).op.vol).entry == SlotOf(h', s.At(t).op.vol).entry
    ensures DataOn(s', h')
  {
    OthersStay(s, s', t);
    forall u: Tid | u != t ensures InPhase(s', h', u) {
      if HoldsVolume(s'.At(u)) {
        assert Owns(s, u) && Owns(s, t) && InPhase(s, h, u);
        assert Kept(s, s', h, h', s.At(u).op.vol);
      }
    }
    forall x | s'.Free(x) ensures s'.SlotAt(x).entry == SlotOf(h', x).entry {
      assert (HoldsVolume(s.At(t)) && s.At(t).op.vol == x) || Kept(s, s', h, h', x);
    }
  }

  lemma OneMoreCall(done: seq<Call>, c: Call)
    requires Sequential(done) && c.result == Apply(c.op, Replay(done)).1
    ensures Sequential(done + [c]) && Replay(done + [c]) == Apply(c.op, Replay(done)).0
  {
    var more := done + [c];
    assert more[..|done|] == done;
    forall i | 0 <= i < |more| ensures more[i].result == Apply(more[i].op, Replay(more[..i])).1 {
      if i < |done| {
        assert more[..i] == done[..i];
      }
    }
  }

  /** One slot changes, in the history too, and who holds which volume stays. */
  ghost predicate SlotStep(s: State, s': State, v: VolumeId, b: Slot) {
    && s'.SlotAt(v) == b && (forall x :: x != v ==> s'.SlotAt(x) == s.SlotAt(x))
    && (forall x :: s'.Free(x) <==> s.Free(x))
  }

  ghost predicate TableStep(h: Tables, h': Tables, v: VolumeId, a: Slot) {
    SlotOf(h', v) == a && forall x :: x != v ==> SlotOf(h', x) == SlotOf(h, x)
  }

  /** What a decision does to the history: the operation on the one slot. */
  lemma Settles(done: seq<Call>, done': seq<Call>, o: Op, d: Option<bool>)
    requires Sequential(done) && done' == if d.Some? then done + [Call(o, d.value)] else done
    requires d.Some? ==> d.value == ApplySlot(o, SlotOf(Replay(done), o.vol)).1
    ensures Sequential(done')
    ensures TableStep(Replay(done), Replay(done'), o.vol, Settle(o, SlotOf(Replay(done), o.vol), d))
  {
    if d.Some? {
      ApplyIsLocal(o, Replay(done));
      OneMoreCall(done, Call(o, d.value));
    }
  }

  lemma WorkSlots(s: State, t: Tid, o: Op, st: Stage, pc: Pc, b: Slot, d: Option<bool>)
    ensures SlotStep(s, NextWork(s, t, o, st, pc, b, d), o.vol, b)
  {}

  lemma WorkData(s: State, s': State, t: Tid, h: Tables, h': Tables, b: Slot, a: Slot)
    requires DataOn(s, h) && HolderInv(s) && Moved(s, s', t)
    requires HoldsVolume(s.At(t)) && HoldsVolume(s'.At(t)) && s'.At(t).op == s.At(t).op
    requires SlotStep(s, s', s.At(t).op.vol, b) && TableStep(h, h', s.At(t).op.vol, a)
    requires Phase(s'.At(t), b.entry, a.entry) && b.detached == a.detached
    ensures DataOn(s', h')
  {
    assert Owns(s, t);
    forall x | x != s.At(t).op.vol ensures Kept(s, s', h, h', x) {
      assert s'.SlotAt(x) == s.SlotAt(x);
    }
    DataStep(s, s', t, h, h');
  }

  lemma BriefData(s: State, s': State, t: Tid, h: Tables, h': Tables, v: VolumeId, b: Slot, a: Slot)
    requires DataOn(s, h) && HolderInv(s) && Moved(s, s', t)
    requires !HoldsVolume(s.At(t)) && !HoldsVolume(s'.At(t))
    requires SlotStep(s, s', v, b) && TableStep(h, h', v, a)
    requires b.entry == s.SlotAt(v).entry && a.entry == SlotOf(h, v).entry && b.detached == a.detached
    ensures DataOn(s', h')
  {
    forall x ensures Kept(s, s', h, h', x) {
      assert x != v ==> s'.SlotAt(x) == s.SlotAt(x);
    }
    DataStep(s, s', t, h, h');
  }

  lemma LockFrees(s: State, t: Tid, op: Op, v: VolumeId)
    requires LocksInv(s) && Owns(s, t) && !AtWork(s.At(t)) && NextLock(s, t, op).Free(v) && !s.Free(v)
    ensures s.At(t).UnlockMutex? && s.At(t).op.vol == v
  {
    assert Knows(s.locks, s.At(t));
  }

  lemma LockPhase(pc: Pc, pc': Pc, e: Option<Record>, h: Option<Record>)
    requires !AtWork(pc) && Fits(pc) && (HoldsVolume(pc) ==> Phase(pc, e, h)) && (pc.LockWait? ==> e == h)
    requires HoldsVolume(pc') && !pc.Idle? && pc'.op == pc.op
    requires if pc.LockWait? then pc' == Work(pc.op, First(pc.op)) else HoldsVolume(pc) && !pc'.Work?
    ensures Phase(pc', e, h)
  {}

  lemma LockInPhase(s: State, t: Tid, op: Op, h: Tables)
    requires InPhase(s, h, t) && !AtWork(s.At(t)) && Fits(s.At(t))
    requires s.At(t).LockWait? ==> s.SlotAt(s.At(t).op.vol).entry == SlotOf(h, s.At(t).op.vol).entry
    ensures InPhase(NextLock(s, t, op), h, t)
  {
    var pc, pc' := s.At(t), NextLock(s, t, op).At(t);
    if HoldsVolume(pc') {
      assert NextLock(s, t, op).SlotAt(pc.op.vol) == s.SlotAt(pc.op.vol);
      LockPhase(pc, pc', s.SlotAt(pc.op.vol).entry, SlotOf(h, pc.op.vol).entry);
    }
  }

  lemma LockFits(s: State, t: Tid, op: Op)
    requires !AtWork(s.At(t)) && Fits(s.At(t))
    ensures Fits(NextLock(s, t, op).At(t))
  {}

  /** No slot changes and nothing is settled; only a volume that is as the history has it becomes free. */
  lemma QuietData(s: State, s': State, t: Tid, h: Tables)
    requires DataOn(s, h) && HolderInv(s) && Moved(s, s', t) && InPhase(s', h, t)
    requires s'.attachments == s.attachments && s'.detached == s.detached
    requires forall x :: s'.Free(x) && !s.Free(x) ==> s.At(t).UnlockMutex? && s.At(t).op.vol == x
    ensures DataOn(s', h)
  {
    assert InPhase(s, h, t);
    assert forall x :: s'.SlotAt(x) == s.SlotAt(x);
    DataStep(s, s', t, h, h);
  }

  /** Locking and unlocking: a volume is taken as the history has it and left as the history has it. */
  lemma LockData(s: State, t: Tid, op: Op, h: Tables)
    requires DataOn(s, h) && LocksInv(s) && HolderInv(s) && Enabled(s, t) && !AtWork(s.At(t)) && Fits(s.At(t))
    ensures DataOn(NextLock(s, t, op), h)
  {
    var s', pc := NextLock(s, t, op), s.At(t);
    assert InPhase(s, h, t) && Knows(s.locks, pc);
    assert pc.LockWait? ==> s.Free(pc.op.vol);
    LockInPhase(s, t, op, h);
    forall x | s'.Free(x) && !s.Free(x) ensures s.At(t).UnlockMutex? && s.At(t).op.vol == x {
      assert Owns(s, t);
      LockFrees(s, t, op, x);
    }
    QuietData(s, s', t, h);
  }

  // ---- every call has its place ----

  /** A step that settles and ends nothing. */
  lemma CallsQuiet(s: State, s': State, t: Tid)
    requires CallsInv(s) && Moved(s, s', t) && s'.done == s.done && s'.settled == s.settled && s'.ends == s.ends
    requires s'.began == if s.At(t).Idle? then s.began[t := |s.done|] else s.began
    requires Decided(s'.At(t)) ==>
               Decided(s.At(t)) && s'.At(t).op == s.At(t).op && ResultOf(s'.At(t)) == ResultOf(s.At(t))
    ensures CallsInv(s')
  {
    OthersStay(s, s', t);
    forall u: Tid ensures Placed(s', u) {
      assert Placed(s, u);
    }
    forall i: nat ensures Ended(s', i) {
      assert Ended(s, i);
    }
  }

  /** A step that settles the call of thread `t`. */
  lemma CallsSettle(s: State, s': State, t: Tid)
    requires CallsInv(s) && Moved(s, s', t) && s'.began == s.began && s'.ends == s.ends
    requires !s.At(t).Idle? && Decided(s'.At(t))
    requires s'.done == s.done + [Call(s'.At(t).op, ResultOf(s'.At(t)))] && s'.settled == s.settled[t := |s.done|]
    ensures CallsInv(s')
  {
    OthersStay(s, s', t);
    forall i: nat ensures Ended(s', i) {
      assert Ended(s, i);
    }
    forall u: Tid ensures Placed(s', u) {
      assert Placed(s, u) && Ended(s, |s.done|);
    }
    forall u: Tid | u != t && Decided(s'.At(u)) ensures s'.SettledAt(u) != s'.SettledAt(t) {
      assert Placed(s, u);
    }
  }

  /** A step with which the call of thread `t` returns. */
  lemma CallsReturn(s: State, s': State, t: Tid)
    requires CallsInv(s) && Moved(s, s', t) && s'.began == s.began && s'.done == s.done && s'.settled == s.settled
    requires Decided(s.At(t)) && s'.At(t).Idle?
    requires s'.ends == s.ends[s.SettledAt(t) := End(s.At(t).op, ResultOf(s.At(t)), s.BeganAt(t), |s.done|)]
    ensures CallsInv(s')
  {
    OthersStay(s, s', t);
    assert Placed(s, t);
    forall i: nat ensures Ended(s', i) {
      assert Ended(s, i);
    }
    forall u: Tid ensures Placed(s', u) {
      assert Placed(s, u);
    }
  }

  // ---- every step ----

  lemma WorkKeepsData(s: State, t: Tid, op: Op)
    requires DataInv(s) && HolderInv(s) && Enabled(s, t) && s.At(t).Work?
    ensures DataInv(Next(s, t, op))
  {
    var pc, h := s.At(t), Replay(s.done);
    var slot, a := s.SlotAt(pc.op.vol), SlotOf(h, pc.op.vol);
    var (pc', b) := WorkStep(pc.op, pc.stage, slot);
    var d := Decision(pc.op, pc.stage, slot);
    var s' := NextWork(s, t, pc.op, pc.stage, pc', b, d);
    assert InPhase(s, h, t);
    assert slot.detached == a.detached;
    WorkPhase(pc.op, pc.stage, slot, a);
    WorkSlots(s, t, pc.op, pc.stage, pc', b, d);
    Settles(s.done, s'.done, pc.op, d);
    WorkData(s, s', t, h, Replay(s'.done), b, Settle(pc.op, a, d));
  }

  lemma BriefKeepsData(s: State, t: Tid, op: Op)
    requires DataInv(s) && HolderInv(s) && Enabled(s, t) && s.At(t).Brief? && Fits(s.At(t))
    ensures DataInv(Next(s, t, op))
  {
    var pc, h := s.At(t), Replay(s.done);
    var slot, a := s.SlotAt(pc.op.vol), SlotOf(h, pc.op.vol);
    var (pc', b) := BriefStep(pc.op, pc.stage, slot);
    var d := Decision(pc.op, pc.stage, slot);
    var s' := NextWork(s, t, pc.op, pc.stage, pc', b, d);
    assert slot.detached == a.detached;
    BriefPhase(pc.op, pc.stage, slot, a);
    BriefDecides(pc.op, pc.stage, slot);
    WorkSlots(s, t, pc.op, pc.stage, pc', b, d);
    Settles(s.done, s'.done, pc.op, d);
    BriefData(s, s', t, h, Replay(s'.done), pc.op.vol, b, Settle(pc.op, a, d));
  }

  /** The history's side of a step at work. */
  lemma WorkKeepsCalls(s: State, s': State, t: Tid, pc: Pc, b: Slot, d: Option<bool>)
    requires CallsInv(s) && AtWork(s.At(t)) && Tracks(s.At(t), pc, d)
    requires s' == NextWork(s, t, s.At(t).op, s.At(t).stage, pc, b, d)
    requires pc.Idle? && s.At(t).stage.Written? ==> d.None? && Decided(s.At(t))
    ensures CallsInv(s')
  {
    if d.Some? {
      CallsSettle(s, s', t);
    } else if pc.Idle? && s.At(t).stage.Written? {
      CallsReturn(s, s', t);
    } else {
      CallsQuiet(s, s', t);
    }
  }

  lemma LockKeepsCalls(s: State, t: Tid, op: Op)
    requires CallsInv(s) && !AtWork(s.At(t))
    ensures CallsInv(NextLock(s, t, op))
  {
    if s.At(t).UnlockMutex? {
      CallsReturn(s, NextLock(s, t, op), t);
    } else {
      CallsQuiet(s, NextLock(s, t, op), t);
    }
  }

  ghost predicate FitInv(s: State) {
    forall t: Tid :: Fits(s.At(t))
  }

  lemma FitsMoved(s: State, s': State, t: Tid)
    requires FitInv(s) && Moved(s, s', t) && Fits(s'.At(t))
    ensures FitInv(s')
  {
    OthersStay(s, s', t);
  }

  lemma WorkInv(s: State, t: Tid, op: Op)
    requires Inv(s) && Enabled(s, t) && s.At(t).Work?
    ensures Inv(Next(s, t, op))
  {
    var pc, s' := s.At(t), Next(s, t, op);
    var slot := s.SlotAt(pc.op.vol);
    var (pc', b) := WorkStep(pc.op, pc.stage, slot);
    var d := Decision(pc.op, pc.stage, slot);
    assert InPhase(s, Replay(s.done), t) && Fits(pc);
    WorkFollows(pc.op, pc.stage, slot);
    WorkDecides(pc.op, pc.stage, slot, SlotOf(Replay(s.done), pc.op.vol).entry);
    WorkKeepsLocking(s, s', t, pc', b, d);
    WorkKeepsData(s, t, op);
    WorkKeepsCalls(s, s', t, pc', b, d);
    FitsMoved(s, s', t);
  }

  lemma BriefInv(s: State, t: Tid, op: Op)
    requires Inv(s) && Enabled(s, t) && s.At(t).Brief?
    ensures Inv(Next(s, t, op))
  {
    var pc, s' := s.At(t), Next(s, t, op);
    var slot := s.SlotAt(pc.op.vol);
    var (pc', b) := BriefStep(pc.op, pc.stage, slot);
    var d := Decision(pc.op, pc.stage, slot);
    assert Fits(pc);
    BriefDecides(pc.op, pc.stage, slot);
    WorkKeepsLocking(s, s', t, pc', b, d);
    BriefKeepsData(s, t, op);
    WorkKeepsCalls(s, s', t, pc', b, d);
    FitsMoved(s, s', t);
  }

  lemma LockInv(s: State, t: Tid, op: Op)
    requires Inv(s) && Enabled(s, t) && !AtWork(s.At(t))
    ensures Inv(Next(s, t, op))
  {
    assert Fits(s.At(t));
    LockKeepsLocking(s, t, op);
    LockData(s, t, op, Replay(s.done));
    LockKeepsCalls(s, t, op);
    LockFits(s, t, op);
    FitsMoved(s, NextLock(s, t, op), t);
  }

  lemma StepInv(s: State, t: Tid, op: Op)
    requires Inv(s) && Enabled(s, t)
    ensures Inv(Next(s, t, op))
  {
    if s.At(t).Work? {
      WorkInv(s, t, op);
    } else if s.At(t).Brief? {
      BriefInv(s, t, op);
    } else {
      LockInv(s, t, op);
    }
  }

  // ---- every interleaving ----

  datatype Move = Move(t: Tid, op: Op)

  /** The state after a schedule; a move of a blocked thread leaves the state alone. */
  function Run(moves: seq<Move>): State {
    if moves == [] then Init
    else
      var s, m := Run(moves[..|moves| - 1]), moves[|moves| - 1];
      if Enabled(s, m.t) then Next(s, m.t, m.op) else s
  }

  lemma {:induction false} RunInv(moves: seq<Move>)
    ensures Inv(Run(moves))
  {
    if moves != [] {
      var s, m := Run(moves[..|moves| - 1]), moves[|moves| - 1];
      RunInv(moves[..|moves| - 1]);
      if Enabled(s, m.t) {
        StepInv(s, m.t, m.op);
      }
    }
  }

  /** No two threads ever work on one volume, although the table of mutexes grows under them. */
  lemma VolumeExclusion(moves: seq<Move>, t: Tid, u: Tid)
    requires var s := Run(moves); HoldsVolume(s.At(t)) && HoldsVolume(s.At(u)) && s.At(t).op.vol == s.At(u).op.vol
    ensures t == u
  {
    RunInv(moves);
    assert Owns(Run(moves), t) && Owns(Run(moves), u);
  }

  /**
   * Linearizability. However the calls interleave, the order in which they were settled is a sequential history: each
   * returned call stands in it with the operation and the result it had, after every call that returned before it
   * began. It stands there once: a call on its way back has a place of its own, and no returned call has that place.
   */
  lemma Linearizable(moves: seq<Move>)
    ensures var s := Run(moves);
            && Sequential(s.done)
            && (forall i :: i in s.ends ==>
                  && i < |s.done| && s.done[i] == Call(s.ends[i].op, s.ends[i].result)
                  && s.ends[i].began <= i < s.ends[i].at <= |s.done|)
            && (forall i, j :: i in s.ends && j in s.ends && s.ends[i].at <= s.ends[j].began ==> i < j)
            && (forall t: Tid :: Decided(s.At(t)) ==> s.SettledAt(t) < |s.done| && s.SettledAt(t) !in s.ends)
            && (forall t: Tid, u: Tid ::
                  t != u && Decided(s.At(t)) && Decided(s.At(u)) ==> s.SettledAt(t) != s.SettledAt(u))
  {
    RunInv(moves);
    var s := Run(moves);
    forall i | i in s.ends ensures Ended(s, i) {}
    forall t: Tid | Decided(s.At(t)) ensures s.SettledAt(t) < |s.done| && s.SettledAt(t) !in s.ends {
      assert Placed(s, t);
    }
  }

  /** Somebody is between the write and the rollback of a Track of volume `v` that will not be persisted. */
  ghost predicate DirtyAt(s: State, v: VolumeId) {
    exists t: Tid :: Dirty(s.At(t)) && s.At(t).op.vol == v
  }

  /**
   * What anybody who reads the maps sees of a volume: what the history leaves, exactly unless a Track of it that will
   * be rolled back has written its entry. The timestamp is never ahead of or behind the history.
   */
  lemma ReadersSee(moves: seq<Move>, v: VolumeId)
    ensures var s := Run(moves);
            && s.SlotAt(v).detached == SlotOf(Replay(s.done), v).detached
            && (s.SlotAt(v) == SlotOf(Replay(s.done), v) <==> !DirtyAt(s, v))
  {
    RunInv(moves);
    SeenOn(Run(moves), Replay(Run(moves).done), v);
  }

  lemma SeenOn(s: State, h: Tables, v: VolumeId)
    requires DataOn(s, h) && LocksInv(s) && HolderInv(s)
    ensures s.SlotAt(v).detached == SlotOf(h, v).detached && (s.SlotAt(v) == SlotOf(h, v) <==> !DirtyAt(s, v))
  {
    if DirtyAt(s, v) {
      var t: Tid :| Dirty(s.At(t)) && s.At(t).op.vol == v;
      assert InPhase(s, h, t);
    } else if !s.Free(v) {
      var t := s.holders[s.locks[v]];
      assert HoldsVolume(s.At(t)) && s.At(t).op.vol == v && InPhase(s, h, t);
    }
  }

  /** How far a Track of an untracked volume is from its write. */
  function ToWrite(pc: Pc): nat {
    match pc
    case Idle => 10
    case LockTable(_) => 9
    case LockLookup(_) => 8
    case LockFound(_, _) => 7
    case LockWait(_, _) => 6
    case Work(_, ReadWait) => 5
    case Work(_, Reading) => 4
    case Work(_, ReadDone(_)) => 3
    case Work(_, Checked(_)) => 2
    case Work(_, WriteWait) => 1
    case _ => 0
  }

  /** Thread 0 is on its way to the write, alone, and the volume has no entry. */
  ghost predicate Alone(s: State, op: Op) {
    && (forall t: Tid :: t != 0 ==> s.At(t).Idle?) && s.SlotAt(op.vol).entry.None?
    && (s.At(0).Idle? || s.At(0).op == op)
    && (ToWrite(s.At(0)) > 0 || s.At(0) == Work(op, Writing))
  }

  /** Nobody else holds anything, so nothing blocks it. */
  lemma AloneEnabled(s: State)
    requires LockingInv(s) && forall t: Tid :: t != 0 ==> s.At(t).Idle?
    ensures Enabled(s, 0)
  {
    if s.tableHolder.Some? {
      assert HoldsTable(s.At(s.tableHolder.value));
    }
    if s.writer.Some? {
      assert HoldsWrite(s.At(s.writer.value));
    }
    if r :| r in s.readers {
      assert HoldsRead(s.At(r));
    }
  }

  lemma AloneAtWork(s: State, op: Op, h: Option<Record>)
    requires Enabled(s, 0) && op.OpTrack? && Alone(s, op) && s.At(0).Work? && Phase(s.At(0), None, h)
    ensures var s' := Next(s, 0, op);
            if ToWrite(s.At(0)) > 0 then Alone(s', op) && ToWrite(s'.At(0)) < ToWrite(s.At(0))
            else s'.At(0) == Work(op, Written(true))
  {
    var pc := s.At(0);
    var slot := s.SlotAt(op.vol);
    var (pc', b) := WorkStep(op, pc.stage, slot);
    WorkSlots(s, 0, op, pc.stage, pc', b, Decision(op, pc.stage, slot));
    OthersStay(s, Next(s, 0, op), 0);
  }

  lemma NearerWrite(pc: Pc, locks: map<VolumeId, Mutex>, next: Mutex, op: Op)
    requires !AtWork(pc) && op.OpTrack? && ToWrite(pc) > 0 && (pc.Idle? || pc.op == op)
    ensures var pc' := LockPc(locks, next, pc, op); 0 < ToWrite(pc') < ToWrite(pc) && pc'.op == op
  {}

  lemma AloneLocking(s: State, op: Op)
    requires Enabled(s, 0) && op.OpTrack? && Alone(s, op) && !s.At(0).Work? && Fits(s.At(0))
    ensures var s' := Next(s, 0, op); Alone(s', op) && ToWrite(s'.At(0)) < ToWrite(s.At(0))
  {
    var s' := NextLock(s, 0, op);
    NearerWrite(s.At(0), s.locks, s.next, op);
    OthersStay(s, s', 0);
    assert s'.SlotAt(op.vol) == s.SlotAt(op.vol);
  }

  lemma AloneSteps(s: State, op: Op)
    requires Inv(s) && op.OpTrack? && Alone(s, op)
    ensures Enabled(s, 0)
    ensures var s' := Next(s, 0, op);
            if ToWrite(s.At(0)) > 0 then Alone(s', op) && ToWrite(s'.At(0)) < ToWrite(s.At(0))
            else s'.At(0) == Work(op, Written(true))
  {
    AloneEnabled(s);
    assert InPhase(s, Replay(s.done), 0) && Fits(s.At(0));
    if s.At(0).Work? {
      AloneAtWork(s, op, SlotOf(Replay(s.done), op.vol).entry);
    } else {
      AloneLocking(s, op);
    }
  }

  /** Such a Track is seen: a thread alone comes to the point where the map has an entry the history never gets. */
  lemma DirtyEntrySeen(op: Op) returns (moves: seq<Move>)
    requires op.OpTrack? && !op.persisted
    ensures DirtyAt(Run(moves), op.vol)
    ensures op.vol in Run(moves).attachments && op.vol !in Replay(Run(moves).done).attachments
  {
    moves := [];
    var going := true;
    while going
      invariant if going then Alone(Run(moves), op) else Run(moves).At(0) == Work(op, Written(true))
      decreases going, ToWrite(Run(moves).At(0))
    {
      var s := Run(moves);
      RunInv(moves);
      AloneSteps(s, op);
      assert (moves + [Move(0, op)])[..|moves|] == moves;
      moves := moves + [Move(0, op)];
      going := ToWrite(s.At(0)) > 0;
    }
    RunInv(moves);
    assert InPhase(Run(moves), Replay(Run(moves).done), 0);
  }

  /** So the two maps are exactly the history's while no such Track is on its way. */
  lemma MapsAreHistory(moves: seq<Move>)
    requires forall v :: !DirtyAt(Run(moves), v)
    ensures var s := Run(moves); s.attachments == Replay(s.done).attachments && s.detached == Replay(s.done).detached
  {
    var s := Run(moves);
    forall v
      ensures v in s.attachments <==> v in Replay(s.done).attachments
      ensures v in s.attachments ==> s.attachments[v] == Replay(s.done).attachments[v]
      ensures v in s.detached <==> v in Replay(s.done).detached
      ensures v in s.detached ==> s.detached[v] == Replay(s.done).detached[v]
    {
      ReadersSee(moves, v);
      assert s.SlotAt(v) == SlotOf(Replay(s.done), v);
    }
  }
}
