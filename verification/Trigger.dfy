/** The fields behind the reconciler's mutex, and what each call does to them. */
module TriggerSpec {
  import opened AttachmentTypes

  /** A start and the stop and done channels it makes; the two fields are set and cleared together. */
  type Generation = nat

  datatype Control = Control(running: Option<Generation>, trigger: bool)

  function Fresh(): Control {
    Control(None, true)
  }

  /** Start refuses a running reconciler; it does not make the trigger channel again. */
  function Started(c: Control, g: Generation): (Control, bool) {
    if c.running.Some? then (c, false) else (c.(running := Some(g)), true)
  }

  function Stopped(c: Control): Control {
    if c.running.Some? then Control(None, false) else c
  }

  /** A send that does not block on a channel with room for one. */
  function Sent(buffered: nat): nat {
    if buffered < 1 then buffered + 1 else buffered
  }
}

/** Any number of callers and of loops, interleaving at every channel operation and release of the mutex. */
module Triggers {
  import opened AttachmentTypes
  import opened TriggerSpec

  type LoopId = nat
  type CallId = nat

  datatype Pc =
    | Spawned  // the goroutine exists and has not captured the channels
    | Due      // what it does next is start a pass
    | Passing
    | Checking // the priority check for stop and cancellation
    | Waiting  // the select over ticker, trigger, stop and cancellation
    | Exited

  /** Loop number n was spawned by the n-th successful Start. */
  datatype Loop = Loop(pc: Pc, done: Option<Generation>, hears: bool, cancelled: bool)

  datatype Call = NotCalled | NoChannel | Armed | Returned(at: nat)

  /** `passes` counts the passes started; a returned call remembers the count at its send. */
  datatype State = State(
    control: Control, buffered: nat, loops: seq<Loop>, stopped: set<Generation>, finished: set<Generation>,
    panicked: bool, passes: nat, calls: map<CallId, Call>)
  {
    function At(c: CallId): Call {
      if c in calls then calls[c] else NotCalled
    }
  }

  datatype Move =
    | Start
    | Stop
    | Cancel(r: LoopId)
    | Advance(r: LoopId)
    | Tick(r: LoopId)
    | Receive(r: LoopId)
    | Quit(r: LoopId)
    | Read(c: CallId)
    | Send(c: CallId)

  function Init(): State {
    State(Fresh(), 0, [], {}, {}, false, 0, map[])
  }

  predicate Signalled(s: State, l: Loop) {
    l.cancelled || (l.done.Some? && l.done.value in s.stopped)
  }

  function AtPc(s: State, r: LoopId, pc: Pc): State
    requires r < |s.loops|
  {
    s.(loops := s.loops[r := s.loops[r].(pc := pc)])
  }

  /** The loop returns and closes its done channel; closing nil or a closed channel panics. */
  function Leave(s: State, r: LoopId): State
    requires r < |s.loops|
  {
    var done := s.loops[r].done;
    if done.None? || done.value in s.finished then AtPc(s, r, Exited).(panicked := true)
    else AtPc(s, r, Exited).(finished := s.finished + {done.value})
  }

  function Forward(s: State, r: LoopId): State
    requires r < |s.loops|
  {
    var l := s.loops[r];
    match l.pc
    case Spawned => s.(loops := s.loops[r := Loop(Due, s.control.running, s.control.trigger, l.cancelled)])
    case Due => AtPc(s, r, Passing).(passes := s.passes + 1)
    case Passing => AtPc(s, r, Checking)
    case Checking => if Signalled(s, l) then Leave(s, r) else AtPc(s, r, Waiting)
    case Waiting => s
    case Exited => s
  }

  predicate Waits(s: State, r: LoopId) {
    r < |s.loops| && s.loops[r].pc.Waiting?
  }

  /** One step; a move that is not enabled leaves the state alone, and nothing moves after a panic. */
  function Next(s: State, mv: Move): State {
    if s.panicked then s else
      match mv
      case Start =>
        var (control, ok) := Started(s.control, |s.loops|);
        if ok then s.(control := control, loops := s.loops + [Loop(Spawned, None, false, false)]) else s
      case Stop =>
        s.(control := Stopped(s.control),
           stopped := if s.control.running.Some? then s.stopped + {s.control.running.value} else s.stopped)
      case Cancel(r) => if r < |s.loops| then s.(loops := s.loops[r := s.loops[r].(cancelled := true)]) else s
      case Advance(r) => if r < |s.loops| then Forward(s, r) else s
      case Tick(r) => if Waits(s, r) then AtPc(s, r, Due) else s
      case Receive(r) =>
        if Waits(s, r) && s.loops[r].hears && s.buffered > 0 then AtPc(s, r, Due).(buffered := s.buffered - 1) else s
      case Quit(r) => if Waits(s, r) && Signalled(s, s.loops[r]) then Leave(s, r) else s
      case Read(c) =>
        if s.At(c).NotCalled? then s.(calls := s.calls[c := if s.control.trigger then Armed else NoChannel]) else s
      case Send(c) =>
        if s.At(c).Armed?
        then s.(buffered := TriggerSpec.Sent(s.buffered), calls := s.calls[c := Returned(s.passes)])
        else s
  }

  function Continue(s: State, moves: seq<Move>): State {
    if moves == [] then s else Next(Continue(s, moves[..|moves| - 1]), moves[|moves| - 1])
  }

  function Run(moves: seq<Move>): State {
    Continue(Init(), moves)
  }

  // ---- no trigger is lost ----

  ghost predicate SomeDue(s: State) {
    exists r :: 0 <= r < |s.loops| && s.loops[r].pc.Due?
  }

  /** A pass started after the call, its token is buffered, or a loop is about to start a pass. */
  ghost predicate Kept(s: State, at: nat) {
    s.passes > at || s.buffered > 0 || SomeDue(s)
  }

  ghost predicate NothingLost(s: State) {
    && s.buffered <= 1
    && forall c: CallId :: s.At(c).Returned? ==> s.At(c).at <= s.passes && Kept(s, s.At(c).at)
  }

  /** A loop gives up being due only by starting a pass. */
  lemma DueStays(s: State, mv: Move)
    ensures SomeDue(s) ==> SomeDue(Next(s, mv)) || Next(s, mv).passes > s.passes
    ensures Next(s, mv).passes >= s.passes
  {
    if SomeDue(s) {
      var r :| 0 <= r < |s.loops| && s.loops[r].pc.Due?;
      var s' := Next(s, mv);
      assert r < |s'.loops| && (s'.loops[r].pc.Due? || s'.passes > s.passes);
    }
  }

  /** A token leaves the buffer only into a loop that is then due. */
  lemma TokenMoves(s: State, mv: Move)
    ensures s.buffered > 0 ==> Next(s, mv).buffered > 0 || SomeDue(Next(s, mv))
  {
    var s' := Next(s, mv);
    if s.buffered > 0 && s'.buffered == 0 {
      assert s'.loops[mv.r].pc.Due?;
    }
  }

  lemma StepNothingLost(s: State, mv: Move)
    requires NothingLost(s)
    ensures NothingLost(Next(s, mv))
  {
    var s' := Next(s, mv);
    DueStays(s, mv);
    TokenMoves(s, mv);
    forall c: CallId | s'.At(c).Returned? ensures s'.At(c).at <= s'.passes && Kept(s', s'.At(c).at) {
      if mv != Send(c) {
        assert s'.At(c) == s.At(c);
      }
    }
  }

  lemma {:induction false} KeepsNothingLost(s: State, moves: seq<Move>)
    requires NothingLost(s)
    ensures NothingLost(Continue(s, moves))
  {
    if moves != [] {
      KeepsNothingLost(s, moves[..|moves| - 1]);
      StepNothingLost(Continue(s, moves[..|moves| - 1]), moves[|moves| - 1]);
    }
  }

  /**
   * At every point of every interleaving at most one trigger is pending, and every call that found the channel,
   * deduplicated or not, is buffered, or a pass started after it, or a loop is about to start one. A stop or a
   * cancellation does not drop the token, but it may leave it in the buffer with nobody to take it.
   */
  lemma NoLostTrigger(moves: seq<Move>)
    ensures NothingLost(Run(moves))
  {
    KeepsNothingLost(Init(), moves);
  }

  // ---- and every trigger is served ----

  predicate IsOwn(mv: Move, r: LoopId) {
    (mv.Advance? || mv.Tick? || mv.Receive? || mv.Quit?) && mv.r == r
  }

  /** Whether the move is a step that loop `r` takes. */
  function OwnStep(s: State, mv: Move, r: LoopId): nat {
    if IsOwn(mv, r) && Next(s, mv) != s then 1 else 0
  }

  /** How many of the moves are. */
  function StepsOf(s: State, moves: seq<Move>, r: LoopId): nat {
    if moves == [] then 0
    else
      var before := moves[..|moves| - 1];
      var mv := moves[|moves| - 1];
      var now := Continue(s, before);
      StepsOf(s, before, r) + OwnStep(now, mv, r)
  }

  function Distance(pc: Pc): nat {
    match pc
    case Passing => 4
    case Checking => 3
    case Waiting => 2
    case Spawned => 2
    case Due => 1
    case Exited => 0
  }

  /** An exited loop had been stopped or cancelled. */
  ghost predicate ExitsSignalled(s: State) {
    forall r :: 0 <= r < |s.loops| && s.loops[r].pc.Exited? ==> Signalled(s, s.loops[r])
  }

  lemma StepExitSignalled(s: State, mv: Move, r: LoopId)
    requires r < |s.loops| && (s.loops[r].pc.Exited? ==> Signalled(s, s.loops[r]))
    ensures var s' := Next(s, mv); r < |s'.loops| && (s'.loops[r].pc.Exited? ==> Signalled(s', s'.loops[r]))
  {}

  lemma StepExitsSignalled(s: State, mv: Move)
    requires ExitsSignalled(s)
    ensures ExitsSignalled(Next(s, mv))
  {
    forall r: LoopId | r < |Next(s, mv).loops| && Next(s, mv).loops[r].pc.Exited?
      ensures Signalled(Next(s, mv), Next(s, mv).loops[r])
    {
      if r < |s.loops| {
        StepExitSignalled(s, mv, r);
      } else {
        NotYetSpawned(s, mv, r);
      }
    }
  }

  lemma {:induction false} ExitsHaveCause(s: State, moves: seq<Move>)
    requires ExitsSignalled(s)
    ensures ExitsSignalled(Continue(s, moves))
  {
    if moves != [] {
      ExitsHaveCause(s, moves[..|moves| - 1]);
      StepExitsSignalled(Continue(s, moves[..|moves| - 1]), moves[|moves| - 1]);
    }
  }

  /** One step of anybody: a pass starts, the loop exits, or it is nearer by one for each step it takes. */
  lemma Nearer(s: State, mv: Move, r: LoopId)
    requires r < |s.loops| && !s.loops[r].pc.Exited?
    ensures var s' := Next(s, mv);
            || s'.passes > s.passes || s'.loops[r].pc.Exited?
            || Distance(s'.loops[r].pc) + OwnStep(s, mv, r) <= Distance(s.loops[r].pc)
  {}

  /** A move that only one loop can make does nothing while that loop does not exist. */
  lemma NotYetSpawned(s: State, mv: Move, r: LoopId)
    requires |s.loops| <= r
    ensures IsOwn(mv, r) ==> Next(s, mv) == s
    ensures r < |Next(s, mv).loops| ==> Next(s, mv).loops[r].pc.Spawned?
  {}

  /** Loop `r`, after `steps` of its own: a pass started, it exited, or it used up that much of its distance `bound`. */
  predicate Near(s: State, from: nat, bound: nat, r: LoopId, steps: nat) {
    && s.passes >= from
    && (if r < |s.loops| then s.passes > from || s.loops[r].pc.Exited? || Distance(s.loops[r].pc) + steps <= bound
        else steps == 0 && 2 <= bound)
  }

  lemma StepNear(s: State, mv: Move, from: nat, bound: nat, r: LoopId, steps: nat)
    requires Near(s, from, bound, r, steps)
    ensures Near(Next(s, mv), from, bound, r, steps + OwnStep(s, mv, r))
  {
    DueStays(s, mv);
    if r >= |s.loops| {
      NotYetSpawned(s, mv, r);
    } else {
      StepLoop(s, mv, r);
      if !s.loops[r].pc.Exited? {
        Nearer(s, mv, r);
      }
    }
  }

  /** Holds of the loops there are and of those that are started on the way. */
  lemma {:induction false} Approaches(s: State, moves: seq<Move>, r: LoopId)
    ensures var bound := if r < |s.loops| then Distance(s.loops[r].pc) else 2;
            Near(Continue(s, moves), s.passes, bound, r, StepsOf(s, moves, r))
  {
    if moves != [] {
      var before := moves[..|moves| - 1];
      Approaches(s, before, r);
      StepNear(Continue(s, before), moves[|moves| - 1], s.passes, if r < |s.loops| then Distance(s.loops[r].pc) else 2,
               r, StepsOf(s, before, r));
    }
  }

  /** The loop can take a step of its own without the ticker. */
  predicate CanStep(s: State, r: LoopId) {
    Next(s, Advance(r)) != s || Next(s, Receive(r)) != s || Next(s, Quit(r)) != s
  }

  /** A loop that has not exited blocks exactly in its select, while it has no token it can hear and no signal. */
  lemma BlockedOnlyWithoutToken(s: State, r: LoopId)
    requires !s.panicked && r < |s.loops| && !s.loops[r].pc.Exited?
    ensures !CanStep(s, r) <==>
              s.loops[r].pc.Waiting? && !(s.loops[r].hears && s.buffered > 0) && !Signalled(s, s.loops[r])
  {
    var l := s.loops[r];
    if l.pc.Waiting? {
      assert Next(s, Quit(r)) == s || Next(s, Quit(r)).loops[r].pc.Exited?;
    } else {
      assert Next(s, Advance(r)).loops[r].pc != l.pc;
    }
  }

  /** The loop exited, and was stopped or cancelled. */
  predicate Dismissed(s: State, r: LoopId) {
    r < |s.loops| && s.loops[r].pc.Exited? && Signalled(s, s.loops[r])
  }

  /** A loop that listens to the trigger channel, or has yet to make its first pass. */
  predicate Listens(s: State, r: LoopId) {
    r < |s.loops| && !s.loops[r].pc.Exited? && (s.loops[r].hears || s.loops[r].pc.Spawned?)
  }

  /** While a returned call waits for its pass and a loop listens, some loop can step, and needs no tick for it. */
  lemma NotStuck(s: State, c: CallId, r: LoopId)
    requires NothingLost(s) && s.At(c).Returned? && s.passes == s.At(c).at && !s.panicked && Listens(s, r)
    ensures exists q: LoopId :: q < |s.loops| && CanStep(s, q)
  {
    if SomeDue(s) {
      var q: LoopId :| q < |s.loops| && s.loops[q].pc.Due?;
      BlockedOnlyWithoutToken(s, q);
    } else {
      BlockedOnlyWithoutToken(s, r);
    }
  }

  lemma {:induction false} CallKept(s: State, more: seq<Move>, c: CallId)
    requires s.At(c).Returned?
    ensures Continue(s, more).At(c) == s.At(c)
  {
    if more != [] {
      CallKept(s, more[..|more| - 1], c);
    }
  }

  /**
   * Every trigger is served, ticker or not. Take any call that has returned and let anything happen after it. If no
   * pass has started since, then no loop has taken more than three steps, unless it exited because it was stopped or
   * cancelled; and if any loop still listens, some loop can take its next step without waiting for a tick.
   */
  lemma TriggerServed(moves: seq<Move>, c: CallId, more: seq<Move>)
    requires Run(moves).At(c).Returned?
    ensures var s, s' := Run(moves), Continue(Run(moves), more);
            || s'.passes > s.At(c).at
            || ((forall r: LoopId :: StepsOf(s, more, r) <= 3 || Dismissed(s', r))
                && (|| s'.panicked || (forall r: LoopId :: !Listens(s', r))
                    || exists q: LoopId :: q < |s'.loops| && CanStep(s', q)))
  {
    var s, s' := Run(moves), Continue(Run(moves), more);
    NoLostTrigger(moves);
    ExitsHaveCause(Init(), moves);
    ExitsHaveCause(s, more);
    if s'.passes <= s.At(c).at {
      forall r: LoopId
        ensures StepsOf(s, more, r) <= 3 || Dismissed(s', r)
      {
        Approaches(s, more, r);
      }
      CallKept(s, more, c);
      KeepsNothingLost(s, more);
      if !s'.panicked && exists r: LoopId :: Listens(s', r) {
        var r: LoopId :| Listens(s', r);
        NotStuck(s', c, r);
      }
    }
  }

  // ---- what a stop does to later triggers ----

  /** The stop at position `i` found the reconciler running. */
  predicate StopsAt(moves: seq<Move>, i: nat) {
    && i < |moves| && moves[i].Stop?
    && Run(moves[..i]).control.running.Some? && !Run(moves[..i]).panicked
  }

  ghost predicate StopTook(moves: seq<Move>) {
    exists i: nat :: StopsAt(moves, i)
  }

  lemma StepTrigger(s: State, mv: Move)
    ensures Next(s, mv).control.trigger <==> s.control.trigger && !(mv.Stop? && s.control.running.Some? && !s.panicked)
  {}

  lemma EarlierStop(moves: seq<Move>, n: nat, i: nat)
    requires i < n <= |moves|
    ensures StopsAt(moves[..n], i) <==> StopsAt(moves, i)
  {
    assert moves[..n][..i] == moves[..i];
  }

  lemma {:induction false} ChannelUntilStop(moves: seq<Move>)
    ensures Run(moves).control.trigger <==> !StopTook(moves)
  {
    if moves != [] {
      var n := |moves| - 1;
      ChannelUntilStop(moves[..n]);
      StepTrigger(Run(moves[..n]), moves[n]);
      forall i: nat | i < n ensures StopsAt(moves[..n], i) <==> StopsAt(moves, i) {
        EarlierStop(moves, n, i);
      }
      var s := Run(moves[..n]);
      assert StopsAt(moves, n) <==> moves[n].Stop? && s.control.running.Some? && !s.panicked;
    }
  }

  /** A call can trigger anything exactly when no stop has taken effect before it; a later Start does not help. */
  lemma TriggerHeardIff(moves: seq<Move>, c: CallId)
    requires Run(moves).At(c).NotCalled? && !Run(moves).panicked
    ensures Next(Run(moves), Read(c)).At(c) == if StopTook(moves) then NoChannel else Armed
  {
    ChannelUntilStop(moves);
  }

  /** What one step may do to one loop, when `control` holds the fields before it. */
  ghost predicate LoopFrom(control: Control, l: Loop, l': Loop) {
    && (!l.pc.Spawned? ==> !l'.pc.Spawned? && l'.done == l.done && l'.hears == l.hears)
    && (l.pc.Exited? ==> l'.pc.Exited?)
    && (l.pc.Spawned? ==>
          || (l'.pc.Spawned? && l'.done == l.done && l'.hears == l.hears)
          || (l'.pc.Due? && l'.done == control.running && l'.hears == control.trigger))
  }

  ghost predicate LoopsFrom(s: State, s': State) {
    && |s.loops| <= |s'.loops|
    && (forall r :: 0 <= r < |s.loops| ==> LoopFrom(s.control, s.loops[r], s'.loops[r]))
    && (forall r :: |s.loops| <= r < |s'.loops| ==> s'.loops[r] == Loop(Spawned, None, false, false))
  }

  lemma StepLoop(s: State, mv: Move, r: LoopId)
    requires r < |s.loops|
    ensures r < |Next(s, mv).loops| && LoopFrom(s.control, s.loops[r], Next(s, mv).loops[r])
  {}

  lemma StepLoops(s: State, mv: Move)
    ensures LoopsFrom(s, Next(s, mv))
  {
    forall r: LoopId | r < |s.loops| ensures LoopFrom(s.control, s.loops[r], Next(s, mv).loops[r]) {
      StepLoop(s, mv, r);
    }
  }

  /** The channel is gone, and every loop that listened to it has exited. */
  ghost predicate NoListener(s: State) {
    && !s.control.trigger
    && (forall r :: 0 <= r < |s.loops| ==> s.loops[r].hears ==> s.loops[r].pc.Exited?)
  }

  lemma StepNoListener(s: State, s': State)
    requires NoListener(s) && LoopsFrom(s, s') && !s'.control.trigger
    ensures NoListener(s')
  {
    forall r | 0 <= r < |s'.loops| ensures s'.loops[r].hears ==> s'.loops[r].pc.Exited? {
      if r < |s.loops| {
        assert LoopFrom(s.control, s.loops[r], s'.loops[r]);
      }
    }
  }

  lemma StepUnheard(s: State, mv: Move, c: CallId)
    requires NoListener(s) && (forall d: CallId :: !s.At(d).Armed?)
    ensures Next(s, mv).buffered == s.buffered
    ensures Next(s, mv).At(c) == s.At(c) || Next(s, mv).At(c).NoChannel?
  {}

  /**
   * Once the channel is gone, no call still holds it and every loop that listened has exited, no call is ever
   * accepted and a leftover token is never taken, however often the reconciler is started again.
   */
  lemma {:induction false} DeafForever(s: State, moves: seq<Move>)
    requires NoListener(s) && forall c: CallId :: !s.At(c).Armed?
    ensures var s' := Continue(s, moves);
            && NoListener(s') && s'.buffered == s.buffered
            && forall c: CallId :: s'.At(c) == s.At(c) || s'.At(c).NoChannel?
  {
    if moves != [] {
      var now := Continue(s, moves[..|moves| - 1]);
      var mv := moves[|moves| - 1];
      DeafForever(s, moves[..|moves| - 1]);
      StepLoops(now, mv);
      StepTrigger(now, mv);
      StepNoListener(now, Next(now, mv));
      forall c: CallId ensures Next(now, mv).At(c) == s.At(c) || Next(now, mv).At(c).NoChannel? {
        StepUnheard(now, mv, c);
      }
      StepUnheard(now, mv, 0);
    }
  }

  // ---- when Stop returns ----

  ghost predicate Captured(s: State, g: Generation) {
    exists r :: 0 <= r < |s.loops| && s.loops[r].done == Some(g)
  }

  ghost predicate ExitedFrom(s: State, g: Generation) {
    exists r :: 0 <= r < |s.loops| && s.loops[r].pc.Exited? && s.loops[r].done == Some(g)
  }

  /** Generations are loop numbers, and a loop has no channels before it captures them. */
  ghost predicate Numbered(s: State) {
    && (s.control.running.Some? ==> s.control.running.value < |s.loops|)
    && (forall r :: 0 <= r < |s.loops| ==> s.loops[r].pc.Spawned? ==> s.loops[r].done.None?)
  }

  /** A done channel is closed exactly when a loop that captured it has exited. */
  ghost predicate Closes(s: State) {
    forall g: Generation :: g in s.finished <==> ExitedFrom(s, g)
  }

  lemma StepRunning(s: State, mv: Move)
    ensures var s' := Next(s, mv);
            || s'.control.running == s.control.running || s'.control.running.None?
            || (s'.control.running == Some(|s.loops|) && |s'.loops| == |s.loops| + 1)
  {}

  lemma StepNumbered(s: State, mv: Move)
    requires Numbered(s)
    ensures Numbered(Next(s, mv))
  {
    StepRunning(s, mv);
    StepLoops(s, mv);
    NumberedFrom(s, Next(s, mv));
  }

  lemma NumberedFrom(s: State, s': State)
    requires Numbered(s) && LoopsFrom(s, s')
    requires s'.control.running.Some? ==> s'.control.running.value < |s'.loops|
    ensures Numbered(s')
  {
    forall r | 0 <= r < |s'.loops| ensures s'.loops[r].pc.Spawned? ==> s'.loops[r].done.None? {
      if r < |s.loops| {
        assert LoopFrom(s.control, s.loops[r], s'.loops[r]);
      }
    }
  }

  /** Who exits in a step, and what that closes. */
  ghost predicate Exits(s: State, s': State, r: LoopId) {
    && r < |s.loops| <= |s'.loops| && s'.loops[r].pc.Exited?
    && s'.finished == (if s'.loops[r].done.Some? then s.finished + {s'.loops[r].done.value} else s.finished)
    && forall q :: 0 <= q < |s'.loops| && q != r && s'.loops[q].pc.Exited? ==> q < |s.loops| && s.loops[q].pc.Exited?
  }

  ghost predicate NobodyExits(s: State, s': State) {
    && s'.finished == s.finished
    && forall q :: 0 <= q < |s'.loops| && s'.loops[q].pc.Exited? ==> q < |s.loops| && s.loops[q].pc.Exited?
  }

  lemma StepExits(s: State, mv: Move)
    ensures NobodyExits(s, Next(s, mv)) || exists r: LoopId :: Exits(s, Next(s, mv), r)
  {
    var s' := Next(s, mv);
    if (mv.Advance? || mv.Quit?) && mv.r < |s.loops| && !s.loops[mv.r].pc.Exited? && s'.loops[mv.r].pc.Exited? {
      assert Exits(s, s', mv.r);
    }
  }

  lemma ExitedStays(s: State, s': State, g: Generation)
    requires LoopsFrom(s, s') && ExitedFrom(s, g)
    ensures ExitedFrom(s', g)
  {
    var r :| 0 <= r < |s.loops| && s.loops[r].pc.Exited? && s.loops[r].done == Some(g);
    assert LoopFrom(s.control, s.loops[r], s'.loops[r]);
  }

  /** A loop that had exited before the step vouches for its generation before the step. */
  lemma ExitedBefore(s: State, s': State, q: LoopId, g: Generation)
    requires LoopsFrom(s, s') && q < |s.loops| && s.loops[q].pc.Exited? && s'.loops[q].done == Some(g)
    ensures ExitedFrom(s, g)
  {
    assert LoopFrom(s.control, s.loops[q], s'.loops[q]);
  }

  lemma ClosesFrom(s: State, s': State, g: Generation)
    requires Closes(s) && LoopsFrom(s, s')
    requires NobodyExits(s, s') || exists r: LoopId :: Exits(s, s', r)
    ensures g in s'.finished <==> ExitedFrom(s', g)
  {
    if g in s.finished {
      ExitedStays(s, s', g);
    } else if ExitedFrom(s', g) {
      var q: LoopId :| q < |s'.loops| && s'.loops[q].pc.Exited? && s'.loops[q].done == Some(g);
      if q < |s.loops| && s.loops[q].pc.Exited? {
        ExitedBefore(s, s', q, g);
      }
    }
  }

  lemma {:induction false} RunCloses(moves: seq<Move>)
    ensures Closes(Run(moves)) && Numbered(Run(moves))
  {
    if moves != [] {
      var s := Run(moves[..|moves| - 1]);
      var mv := moves[|moves| - 1];
      RunCloses(moves[..|moves| - 1]);
      StepNumbered(s, mv);
      StepLoops(s, mv);
      StepExits(s, mv);
      forall g: Generation ensures g in Next(s, mv).finished <==> ExitedFrom(Next(s, mv), g) {
        ClosesFrom(s, Next(s, mv), g);
      }
    }
  }

  /** The field no longer holds generation `g`, and no loop has captured it. */
  ghost predicate Missed(s: State, g: Generation) {
    Numbered(s) && g < |s.loops| && s.control.running != Some(g) && g !in s.finished && !Captured(s, g)
  }

  lemma MissedFrom(s: State, s': State, g: Generation)
    requires Missed(s, g) && LoopsFrom(s, s') && Numbered(s') && s'.control.running != Some(g)
    requires NobodyExits(s, s') || exists r: LoopId :: Exits(s, s', r)
    ensures Missed(s', g)
  {
    forall r | 0 <= r < |s'.loops| ensures s'.loops[r].done != Some(g) {
      if r < |s.loops| {
        assert LoopFrom(s.control, s.loops[r], s'.loops[r]);
      }
    }
  }

  /** Such a generation is never captured, so its done channel is never closed. */
  lemma {:induction false} MissedForever(s: State, moves: seq<Move>, g: Generation)
    requires Missed(s, g)
    ensures Missed(Continue(s, moves), g)
  {
    if moves != [] {
      var now := Continue(s, moves[..|moves| - 1]);
      var mv := moves[|moves| - 1];
      MissedForever(s, moves[..|moves| - 1], g);
      StepNumbered(now, mv);
      StepRunning(now, mv);
      StepLoops(now, mv);
      StepExits(now, mv);
      MissedFrom(now, Next(now, mv), g);
    }
  }

  lemma {:induction false} Append(s: State, a: seq<Move>, b: seq<Move>)
    ensures Continue(s, a + b) == Continue(Continue(s, a), b)
  {
    if b == [] {
      assert a + b == a;
    } else {
      Append(s, a, b[..|b| - 1]);
      assert (a + b)[..|a + b| - 1] == a + b[..|b| - 1];
    }
  }

  lemma ContinueOne(s: State, mv: Move)
    ensures Continue(s, [mv]) == Next(s, mv)
  {
    assert [mv][..0] == [];
  }

  predicate Live(s: State, r: LoopId) {
    !s.panicked && r < |s.loops| && !s.loops[r].pc.Spawned? && !s.loops[r].pc.Exited?
  }

  /** No Start and no Stop. */
  predicate Quiet(moves: seq<Move>) {
    forall i :: 0 <= i < |moves| ==> !moves[i].Start? && !moves[i].Stop?
  }

  /** From `s` to `s'` loop `r` left with the channel `done`: it closed it, or panicked if none is left to close. */
  ghost predicate LeftWith(s: State, s': State, r: LoopId, done: Option<Generation>) {
    && s.finished <= s'.finished && (done.Some? ==> done.value in s'.finished)
    && if done.None? || done.value in s.finished then s'.panicked
       else
         && !s'.panicked && s'.control == s.control && |s'.loops| == |s.loops|
         && forall q: LoopId :: q < |s.loops| && q != r ==> s'.loops[q] == s.loops[q]
  }

  /** A signalled loop left to itself leaves. */
  lemma DriveOut(s: State, r: LoopId) returns (moves: seq<Move>)
    requires Live(s, r) && Signalled(s, s.loops[r])
    ensures Quiet(moves) && LeftWith(s, Continue(s, moves), r, s.loops[r].done)
    decreases if s.loops[r].pc.Due? then 5 else Distance(s.loops[r].pc)
  {
    var mv := if s.loops[r].pc.Waiting? then Quit(r) else Advance(r);
    var rest := [];
    if !s.loops[r].pc.Waiting? && !s.loops[r].pc.Checking? {
      rest := DriveOut(Next(s, mv), r);
    }
    moves := [mv] + rest;
    ContinueOne(s, mv);
    Append(s, [mv], rest);
  }

  predicate Finished(s: State, moves: seq<Move>, g: Generation) {
    g in Continue(s, moves).finished
  }

  /**
   * A Stop can return exactly when some loop captured the channels of the generation it stops before it cleared
   * them. Start does not wait for that, so a Stop that comes at once can wait for ever.
   */
  lemma StopReturnsIff(moves: seq<Move>, g: Generation)
    requires !Run(moves).panicked && Run(moves).control.running == Some(g)
    ensures (exists more :: Finished(Next(Run(moves), Stop), more, g)) <==> Captured(Run(moves), g)
  {
    var s := Run(moves);
    var s1 := Next(s, Stop);
    RunCloses(moves);
    if Captured(s, g) {
      var r: LoopId :| r < |s.loops| && s.loops[r].done == Some(g);
      var more := [];
      if s.loops[r].pc.Exited? {
        assert ExitedFrom(s, g);
      } else {
        more := DriveOut(s1, r);
      }
      assert Finished(s1, more, g);
    } else {
      assert !ExitedFrom(s, g);
      forall more ensures !Finished(s1, more, g) {
        MissedForever(s1, more, g);
      }
    }
  }

  /** A Stop at once after the Start waits for ever. */
  lemma StopAtOnceHangs()
    ensures var s := Run([Start]);
            && !s.panicked && s.control.running == Some(0)
            && forall more :: !Finished(Next(s, Stop), more, 0)
  {
    ContinueOne(Init(), Start);
    StopReturnsIff([Start], 0);
  }

  lemma TwoMoves(s: State, a: Move, b: Move)
    ensures Continue(s, [a, b]) == Next(Next(s, a), b)
  {
    assert [a, b][..1] == [a];
    ContinueOne(s, a);
  }

  const FirstWait := [Start, Advance(0)] + [Advance(0), Advance(0)] + [Advance(0)]

  /** The first loop after its first pass. */
  lemma FirstWaitReached()
    ensures Run(FirstWait)
         == State(Control(Some(0), true), 0, [Loop(Waiting, Some(0), true, false)], {}, {}, false, 1, map[])
  {
    var s2 := Next(Next(Init(), Start), Advance(0));
    var s4 := Next(Next(s2, Advance(0)), Advance(0));
    TwoMoves(Init(), Start, Advance(0));
    TwoMoves(s2, Advance(0), Advance(0));
    ContinueOne(s4, Advance(0));
    Append(Init(), [Start, Advance(0)], [Advance(0), Advance(0)]);
    Append(Init(), [Start, Advance(0)] + [Advance(0), Advance(0)], [Advance(0)]);
    assert s4.loops == [Loop(Checking, Some(0), true, false)];
  }

  /** A Stop that returned leaves nobody listening; after a new Start a call still finds no channel. */
  lemma DeafReached()
    ensures var s := Run(FirstWait + [Stop, Quit(0)]);
            && NoListener(s) && (forall c: CallId :: !s.At(c).Armed?) && 0 in s.finished && !s.panicked
            && Next(s, Start).control.running == Some(1) && Next(Next(s, Start), Read(0)).At(0) == NoChannel
  {
    FirstWaitReached();
    Append(Init(), FirstWait, [Stop, Quit(0)]);
    TwoMoves(Run(FirstWait), Stop, Quit(0));
  }

  // ---- when a loop panics ----

  /** Every loop that has captured channels captured those of its own Start. */
  ghost predicate OwnChannels(s: State) {
    forall r: LoopId :: r < |s.loops| && !s.loops[r].pc.Spawned? ==> s.loops[r].done == Some(r)
  }

  lemma OwnBefore(s: State, s': State)
    requires LoopsFrom(s, s') && OwnChannels(s')
    ensures OwnChannels(s)
  {
    forall r: LoopId | r < |s.loops| && !s.loops[r].pc.Spawned? ensures s.loops[r].done == Some(r) {
      assert LoopFrom(s.control, s.loops[r], s'.loops[r]);
    }
  }

  lemma StepNoPanic(s: State, mv: Move)
    requires OwnChannels(s) && Closes(s) && !s.panicked
    ensures !Next(s, mv).panicked
  {
    if mv.Advance? || mv.Quit? {
      assert mv.r in s.finished <==> ExitedFrom(s, mv.r);
    }
  }

  /** A history in which every capture was in time has not panicked. */
  lemma {:induction false} OwnChannelsNeverPanic(moves: seq<Move>)
    requires OwnChannels(Run(moves))
    ensures !Run(moves).panicked
  {
    if moves != [] {
      var s := Run(moves[..|moves| - 1]);
      var mv := moves[|moves| - 1];
      StepLoops(s, mv);
      OwnBefore(s, Next(s, mv));
      OwnChannelsNeverPanic(moves[..|moves| - 1]);
      RunCloses(moves[..|moves| - 1]);
      StepNoPanic(s, mv);
    }
  }

  /** The channel loop `r` has captured, or captures if it goes on now. */
  function Holds(s: State, r: LoopId): Option<Generation>
    requires r < |s.loops|
  {
    if s.loops[r].pc.Spawned? then s.control.running else s.loops[r].done
  }

  /** Every loop has captured the channels of its own Start, or would now. */
  ghost predicate InTime(s: State) {
    forall r: LoopId :: r < |s.loops| ==> Holds(s, r) == Some(r)
  }

  lemma QuietControl(s: State, mv: Move)
    requires !mv.Start? && !mv.Stop?
    ensures Next(s, mv).control == s.control && |Next(s, mv).loops| == |s.loops|
  {}

  lemma StepInTime(s: State, s': State)
    requires InTime(s) && LoopsFrom(s, s') && s'.control == s.control && |s'.loops| == |s.loops|
    ensures InTime(s') && OwnChannels(s)
  {
    forall r: LoopId | r < |s'.loops| ensures Holds(s', r) == Some(r) {
      assert LoopFrom(s.control, s.loops[r], s'.loops[r]) && Holds(s, r) == Some(r);
    }
    forall r: LoopId | r < |s.loops| && !s.loops[r].pc.Spawned? ensures s.loops[r].done == Some(r) {
      assert Holds(s, r) == Some(r);
    }
  }

  /** Then no loop panics, however it is cancelled or goes on. */
  lemma {:induction false} InTimeNeverPanics(s: State, more: seq<Move>)
    requires InTime(s) && Closes(s) && !s.panicked && Quiet(more)
    ensures var s' := Continue(s, more); InTime(s') && Closes(s') && !s'.panicked
  {
    if more != [] {
      var now := Continue(s, more[..|more| - 1]);
      var mv := more[|more| - 1];
      InTimeNeverPanics(s, more[..|more| - 1]);
      QuietControl(now, mv);
      StepLoops(now, mv);
      StepInTime(now, Next(now, mv));
      StepNoPanic(now, mv);
      StepExits(now, mv);
      forall g: Generation ensures g in Next(now, mv).finished <==> ExitedFrom(Next(now, mv), g) {
        ClosesFrom(now, Next(now, mv), g);
      }
    }
  }

  /** The running generation is the newest, and a loop captures its own generation or a later one. */
  ghost predicate Later(s: State) {
    && (s.control.running.Some? ==> s.control.running.value == |s.loops| - 1)
    && (forall r: LoopId :: r < |s.loops| && s.loops[r].done.Some? ==> r <= s.loops[r].done.value < |s.loops|)
  }

  lemma LaterFrom(s: State, s': State)
    requires Later(s) && LoopsFrom(s, s')
    requires s'.control.running.Some? ==> s'.control.running.value == |s'.loops| - 1
    ensures Later(s')
  {
    forall r: LoopId | r < |s'.loops| && s'.loops[r].done.Some? ensures r <= s'.loops[r].done.value < |s'.loops| {
      if r < |s.loops| {
        assert LoopFrom(s.control, s.loops[r], s'.loops[r]);
      }
    }
  }

  lemma StepLater(s: State, mv: Move)
    requires Later(s)
    ensures Later(Next(s, mv))
  {
    StepLoops(s, mv);
    LaterFrom(s, Next(s, mv));
  }

  /** Loops that have exited without a panic closed channels of their own, each a different one. */
  ghost predicate ClosedApart(s: State) {
    && (forall r: LoopId :: r < |s.loops| && s.loops[r].pc.Exited? ==> s.loops[r].done.Some?)
    && (forall r: LoopId, q: LoopId ::
          r < q < |s.loops| && s.loops[r].pc.Exited? && s.loops[q].pc.Exited? ==> s.loops[r].done != s.loops[q].done)
  }

  /** Who exits without a panic had a channel, and one that was not closed. */
  lemma StepExitsOpen(s: State, mv: Move, r: LoopId)
    requires r < |s.loops| && !s.loops[r].pc.Exited? && Next(s, mv).loops[r].pc.Exited? && !Next(s, mv).panicked
    ensures s.loops[r].done.Some? && s.loops[r].done.value !in s.finished
    ensures Next(s, mv).loops[r].done == s.loops[r].done
  {}

  lemma StepClosedApart(s: State, mv: Move)
    requires ClosedApart(s) && Closes(s) && !Next(s, mv).panicked
    ensures ClosedApart(Next(s, mv))
  {
    var s' := Next(s, mv);
    StepLoops(s, mv);
    StepExits(s, mv);
    forall r: LoopId | r < |s'.loops| && s'.loops[r].pc.Exited? ensures s'.loops[r].done.Some? {
      ExitedDone(s, mv, r);
    }
    forall r: LoopId, q: LoopId | r < q < |s'.loops| && s'.loops[r].pc.Exited? && s'.loops[q].pc.Exited?
      ensures s'.loops[r].done != s'.loops[q].done
    {
      ExitedDone(s, mv, r);
      ExitedDone(s, mv, q);
    }
  }

  /** A loop that is out after a step was out before it, or takes a channel that nobody who was out has. */
  lemma ExitedDone(s: State, mv: Move, r: LoopId)
    requires ClosedApart(s) && Closes(s) && LoopsFrom(s, Next(s, mv)) && !Next(s, mv).panicked
    requires r < |Next(s, mv).loops| && Next(s, mv).loops[r].pc.Exited?
    ensures r < |s.loops| && Next(s, mv).loops[r].done == s.loops[r].done && s.loops[r].done.Some?
    ensures s.loops[r].pc.Exited? || !ExitedFrom(s, s.loops[r].done.value)
  {
    if r < |s.loops| {
      assert LoopFrom(s.control, s.loops[r], Next(s, mv).loops[r]);
      if !s.loops[r].pc.Exited? {
        StepExitsOpen(s, mv, r);
      }
    }
  }

  lemma {:induction false} RunApart(moves: seq<Move>)
    ensures Later(Run(moves)) && (!Run(moves).panicked ==> ClosedApart(Run(moves)))
  {
    if moves != [] {
      var s := Run(moves[..|moves| - 1]);
      RunApart(moves[..|moves| - 1]);
      RunCloses(moves[..|moves| - 1]);
      StepLater(s, moves[|moves| - 1]);
      if !Next(s, moves[|moves| - 1]).panicked {
        StepClosedApart(s, moves[|moves| - 1]);
      }
    }
  }

  /** A loop made to capture, cancelled and left to itself leaves with the channel it holds. */
  lemma Expel(s: State, r: LoopId) returns (moves: seq<Move>)
    requires !s.panicked && r < |s.loops| && !s.loops[r].pc.Exited?
    ensures Quiet(moves) && LeftWith(s, Continue(s, moves), r, Holds(s, r))
  {
    var first := if s.loops[r].pc.Spawned? then [Advance(r)] else [];
    ContinueOne(s, Advance(r));
    var s1 := Continue(s, first);
    assert Live(s1, r) && s1.loops[r].done == Holds(s, r);
    var s2 := Next(s1, Cancel(r));
    var rest := DriveOut(s2, r);
    ContinueOne(s1, Cancel(r));
    Append(s1, [Cancel(r)], rest);
    Append(s, first, [Cancel(r)] + rest);
    moves := first + ([Cancel(r)] + rest);
  }

  ghost predicate Panics(s: State, more: seq<Move>) {
    Quiet(more) && Continue(s, more).panicked
  }

  /** A loop that captured nil, or captures it now, panics once its context is cancelled and it leaves. */
  lemma NilChannelsPanic(s: State, r: LoopId)
    requires !s.panicked && r < |s.loops| && !s.loops[r].pc.Exited? && Holds(s, r).None?
    ensures exists more :: Panics(s, more)
  {
    var more := Expel(s, r);
    assert Panics(s, more);
  }

  /** Of two loops with one channel the second to leave panics. */
  lemma SharedChannelsPanic(s: State, r: LoopId, q: LoopId)
    requires !s.panicked && ClosedApart(s) && Closes(s)
    requires r < |s.loops| && q < |s.loops| && r != q && Holds(s, r) == Holds(s, q)
    ensures exists more :: Panics(s, more)
  {
    if !s.loops[r].pc.Exited? && !s.loops[q].pc.Exited? {
      var a := Expel(s, r);
      var s1 := Continue(s, a);
      if s1.panicked {
        assert Panics(s, a);
      } else {
        var b := Expel(s1, q);
        Append(s, a, b);
        assert Panics(s, a + b);
      }
    } else {
      var (gone, left) := if s.loops[r].pc.Exited? then (r, q) else (q, r);
      assert s.loops[gone].done.Some? && ExitedFrom(s, s.loops[gone].done.value);
      var more := Expel(s, left);
      assert Panics(s, more);
    }
  }

  /** From a loop that holds a later channel to one that holds none, or to two that hold the same. */
  lemma {:induction false} LateCapturePanics(s: State, r: LoopId)
    requires !s.panicked && Later(s) && ClosedApart(s) && Closes(s)
    requires r < |s.loops| && Holds(s, r) != Some(r)
    ensures exists more :: Panics(s, more)
    decreases |s.loops| - r
  {
    if Holds(s, r).None? {
      NilChannelsPanic(s, r);
    } else {
      var g := Holds(s, r).value;
      if Holds(s, g) == Some(g) {
        SharedChannelsPanic(s, r, g);
      } else {
        LateCapturePanics(s, g);
      }
    }
  }

  /**
   * Exactly when some loop can still panic although nobody starts or stops the reconciler again: one of them has
   * captured channels that are not those of its own Start, or would now.
   */
  lemma PanicsIff(moves: seq<Move>)
    requires !Run(moves).panicked
    ensures (exists more :: Panics(Run(moves), more)) <==> !InTime(Run(moves))
  {
    var s := Run(moves);
    RunCloses(moves);
    RunApart(moves);
    if InTime(s) {
      forall more ensures !Panics(s, more) {
        if Quiet(more) {
          InTimeNeverPanics(s, more);
        }
      }
    } else {
      var r: LoopId :| r < |s.loops| && Holds(s, r) != Some(r);
      LateCapturePanics(s, r);
    }
  }

  /** A Stop at once after the Start leaves the loop nil channels; a further Start leaves it that one's. */
  lemma LateCaptures()
    ensures var s := Run([Start, Stop, Advance(0)]);
            && !s.panicked && Live(s, 0) && s.loops[0].done.None? && exists more :: Panics(s, more)
    ensures var s := Run([Start, Stop, Start, Advance(0)]);
            && !s.panicked && Live(s, 0) && s.loops[0].done == Some(1) && exists more :: Panics(s, more)
  {
    var s2 := Next(Next(Init(), Start), Stop);
    var nil, later := [Start, Stop, Advance(0)], [Start, Stop, Start, Advance(0)];
    ContinueOne(Init(), Start);
    ContinueOne(Next(Init(), Start), Stop);
    Append(Init(), [Start], [Stop]);
    assert nil == ([Start] + [Stop]) + [Advance(0)];
    Append(Init(), [Start] + [Stop], [Advance(0)]);
    ContinueOne(s2, Advance(0));
    PanicsIff(nil);
    assert later == (([Start] + [Stop]) + [Start]) + [Advance(0)];
    Append(Init(), [Start] + [Stop], [Start]);
    ContinueOne(s2, Start);
    Append(Init(), ([Start] + [Stop]) + [Start], [Advance(0)]);
    ContinueOne(Next(s2, Start), Advance(0));
    PanicsIff(later);
    assert Holds(Run(nil), 0) != Some(0) && Holds(Run(later), 0) != Some(0);
  }
}

/** The reconciler's control fields and channels as the source keeps them. */
module ReconcilerControls {
  import opened AttachmentTypes
  import opened TriggerSpec

  class Channel {
    const capacity: nat
    var buffered: nat
    var closed: bool

    constructor (capacity: nat)
      ensures this.capacity == capacity && buffered == 0 && !closed
    {
      this.capacity := capacity;
      buffered, closed := 0, false;
    }
  }

  class ReconcilerControl {
    var stopCh: Channel?
    var doneCh: Channel?
    var triggerCh: Channel?

    /** Stop and done channel come and go together; the channels are distinct. */
    ghost predicate Valid()
      reads this, stopCh, doneCh, triggerCh
    {
      && (stopCh == null <==> doneCh == null)
      && (stopCh != null ==> !stopCh.closed && stopCh != doneCh && stopCh != triggerCh && doneCh != triggerCh)
      && (triggerCh != null ==> triggerCh.capacity == 1 && triggerCh.buffered <= 1)
    }

    /** The fields, when the current channels are those of generation `g`. */
    ghost function Value(g: Generation): Control
      reads this
    {
      Control(if stopCh != null then Some(g) else None, triggerCh != null)
    }

    constructor ()
      ensures Valid() && forall g: Generation :: Value(g) == Fresh()
      ensures triggerCh != null && fresh(triggerCh) && triggerCh.buffered == 0
    {
      stopCh, doneCh := null, null;
      triggerCh := new Channel(1);
    }

    method Start(ghost before: Generation, ghost g: Generation) returns (ok: bool)
      requires Valid()
      modifies this`stopCh, this`doneCh
      ensures Valid()
      ensures (if ok then Value(g) else Value(before), ok) == Started(old(Value(before)), g)
      ensures if ok then fresh(stopCh) && fresh(doneCh) && !doneCh.closed
              else stopCh == old(stopCh) && doneCh == old(doneCh)
    {
      if stopCh != null {
        return false;
      }
      stopCh := new Channel(0);
      doneCh := new Channel(0);
      ok := true;
    }

    /** Up to the wait; the result is the channel to wait for. */
    method Stop(ghost g: Generation) returns (wait: Channel?)
      requires Valid()
      modifies this, stopCh
      ensures Valid() && Value(g) == Stopped(old(Value(g)))
      ensures wait == old(doneCh)
      ensures old(stopCh) != null ==> old(stopCh).closed && old(stopCh).buffered == old(stopCh.buffered)
    {
      if stopCh == null {
        return null;
      }
      stopCh.closed := true;
      wait := doneCh;
      stopCh, doneCh, triggerCh := null, null, null;
    }

    /** A call that nobody interrupts between reading the channel and sending. */
    method TriggerReconcile() returns (sent: bool)
      requires Valid()
      modifies triggerCh
      ensures Valid()
      ensures triggerCh != null ==>
                && triggerCh.buffered == TriggerSpec.Sent(old(triggerCh.buffered))
                && triggerCh.closed == old(triggerCh.closed)
                && sent == (old(triggerCh.buffered) == 0)
      ensures triggerCh == null ==> !sent
    {
      var channel := triggerCh;
      if channel == null {
        return false;
      }
      if channel.buffered < channel.capacity {
        channel.buffered := channel.buffered + 1;
        sent := true;
      } else {
        sent := false;
      }
    }
  }
}
