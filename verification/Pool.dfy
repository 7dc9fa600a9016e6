/** The sections of the connection pool that run under its mutex. */
module PoolSpec {
  import opened AttachmentTypes

  type Client = nat

  datatype Conn = Conn(client: Client, lastUsed: Time)

  datatype Pool = Pool(maxSize: int, maxIdle: int, idle: seq<Conn>, active: int, closed: bool)

  /** The limits a configuration gives, after the constructor's defaults. */
  function Limits(maxSize: int, maxIdle: int): (int, int) {
    var size := if maxSize <= 0 then 10 else maxSize;
    var idle := if maxIdle <= 0 then 5 else maxIdle;
    (size, if idle > size then size else idle)
  }

  datatype Taken = PoppedStale(client: Client) | Reused(client: Client) | Exhausted | MayCreate

  /** One turn of the loop in Get: pop the newest idle connection, or reserve room for a new one. */
  function Take(p: Pool, stale: bool): (Pool, Taken) {
    if p.idle != [] then
      var conn := p.idle[|p.idle| - 1];
      var rest := p.idle[..|p.idle| - 1];
      if stale then (p.(idle := rest), PoppedStale(conn.client))
      else (p.(idle := rest, active := p.active + 1), Reused(conn.client))
    else if p.active >= p.maxSize then (p, Exhausted)
    else (p.(active := p.active + 1), MayCreate)
  }

  function CreateFailed(p: Pool): Pool {
    p.(active := p.active - 1)
  }

  /** The second component says whether the connection was kept; otherwise it is closed. */
  function Return(p: Pool, c: Client, connected: bool, now: Time): (Pool, bool) {
    if p.closed then (p, false)
    else if |p.idle| >= p.maxIdle || !connected then (p.(active := p.active - 1), false)
    else (p.(active := p.active - 1, idle := p.idle + [Conn(c, now)]), true)
  }

  function Shut(p: Pool): Pool {
    if p.closed then p else p.(closed := true, idle := [])
  }

  // ---- a Get that nobody interrupts ----

  /** The whole loop: drop stale connections from the newest on, until one is live or none is left. */
  function TakeUntilLive(p: Pool, stale: Conn -> bool): (Pool, Taken)
    decreases |p.idle|
  {
    if p.idle != [] && stale(p.idle[|p.idle| - 1]) then TakeUntilLive(Take(p, true).0, stale)
    else Take(p, false)
  }

  /** The loop reuses the newest connection that is not stale, and drops exactly those above it. */
  lemma {:induction false} NewestLiveIsReused(p: Pool, stale: Conn -> bool, k: nat)
    requires k < |p.idle| && !stale(p.idle[k]) && forall j :: k < j < |p.idle| ==> stale(p.idle[j])
    ensures TakeUntilLive(p, stale) == (p.(idle := p.idle[..k], active := p.active + 1), Reused(p.idle[k].client))
    decreases |p.idle|
  {
    if k < |p.idle| - 1 {
      var rest := Take(p, true).0;
      assert rest.idle[..k] == p.idle[..k];
      NewestLiveIsReused(rest, stale, k);
    }
  }

  /** With none live it empties the idle list, and reserves room if fewer than the maximum are active. */
  lemma {:induction false} NoneLive(p: Pool, stale: Conn -> bool)
    requires forall j :: 0 <= j < |p.idle| ==> stale(p.idle[j])
    ensures TakeUntilLive(p, stale)
         == if p.active >= p.maxSize then (p.(idle := []), Exhausted)
            else (p.(idle := [], active := p.active + 1), MayCreate)
    decreases |p.idle|
  {
    if p.idle != [] {
      NoneLive(Take(p, true).0, stale);
    }
  }
}

/** Any number of Get and Put calls and Close, interleaving wherever the pool's mutex is released. */
module PoolThreads {
  import opened AttachmentTypes
  import opened PoolSpec

  type CallId = nat

  /** A Get call and, after it, the connection its caller holds until it Puts it back. */
  datatype Pc =
    | NotStarted
    | Looping                      // passed the closed check, the breaker and the rate limit
    | ClosingStale(client: Client) // popped a stale connection and closes it without the mutex
    | Creating                     // calls the factory without the mutex
    | Held(client: Client)         // returned to the caller
    | Over

  datatype State = State(pool: Pool, created: Client, shut: set<Client>, abandoned: nat, calls: map<CallId, Pc>)
  {
    function At(g: CallId): Pc {
      if g in calls then calls[g] else NotStarted
    }
  }

  datatype Move =
    | Begin(g: CallId, admitted: bool)
    | Turn(g: CallId, stale: bool)
    | Factory(g: CallId, ok: bool)
    | Put(g: CallId, connected: bool, now: Time)
    | Close

  function Init(maxSize: int, maxIdle: int): State {
    var (size, idle) := Limits(maxSize, maxIdle);
    State(Pool(size, idle, [], 0, false), 0, {}, 0, map[])
  }

  /** One step; a move that does not fit the call's position leaves the state alone. */
  function Next(s: State, mv: Move): State {
    match mv
    case Begin(g, admitted) =>
      if s.At(g).NotStarted? then s.(calls := s.calls[g := if !s.pool.closed && admitted then Looping else Over]) else s
    case Turn(g, stale) =>
      if s.At(g).Looping? then AfterTake(s, g, stale)
      else if s.At(g).ClosingStale? then s.(shut := s.shut + {s.At(g).client}, calls := s.calls[g := Looping])
      else s
    case Factory(g, ok) =>
      if !s.At(g).Creating? then s
      else if ok then s.(created := s.created + 1, calls := s.calls[g := Held(s.created)])
      else s.(pool := CreateFailed(s.pool), calls := s.calls[g := Over])
    case Put(g, connected, now) =>
      if s.At(g).Held? then AfterPut(s, g, connected, now) else s
    case Close =>
      s.(pool := Shut(s.pool), shut := if s.pool.closed then s.shut else s.shut + IdleClients(s.pool))
  }

  function AfterTake(s: State, g: CallId, stale: bool): State {
    var (p, taken) := Take(s.pool, stale);
    var pc :=
      match taken
      case PoppedStale(c) => ClosingStale(c)
      case Reused(c) => Held(c)
      case Exhausted => Over
      case MayCreate => Creating;
    s.(pool := p, calls := s.calls[g := pc])
  }

  /** A closed pool closes the connection and does not lower its count. */
  function AfterPut(s: State, g: CallId, connected: bool, now: Time): State
    requires s.At(g).Held?
  {
    var c := s.At(g).client;
    var (p, kept) := Return(s.pool, c, connected, now);
    s.(pool := p,
       shut := if kept then s.shut else s.shut + {c},
       abandoned := if s.pool.closed then s.abandoned + 1 else s.abandoned,
       calls := s.calls[g := Over])
  }

  function IdleClients(p: Pool): set<Client> {
    set i | 0 <= i < |p.idle| :: p.idle[i].client
  }

  function Run(maxSize: int, maxIdle: int, moves: seq<Move>): State {
    if moves == [] then Init(maxSize, maxIdle)
    else Next(Run(maxSize, maxIdle, moves[..|moves| - 1]), moves[|moves| - 1])
  }

  // ---- the invariant ----

  predicate HasClient(pc: Pc) { pc.ClosingStale? || pc.Held? }

  predicate Counts(pc: Pc) { pc.Creating? || pc.Held? }

  ghost function Counted(s: State): set<CallId> {
    set g | g in s.calls && Counts(s.calls[g])
  }

  /** The limits hold, and `active` counts creations, connections out, and those given back after the close. */
  ghost predicate Capacity(s: State) {
    && 1 <= s.pool.maxIdle <= s.pool.maxSize
    && |s.pool.idle| <= s.pool.maxIdle
    && s.pool.active + |s.pool.idle| <= s.pool.maxSize
    && s.pool.active == |Counted(s)| + s.abandoned
    && (s.pool.closed ==> s.pool.idle == [])
    && (!s.pool.closed ==> s.abandoned == 0)
  }

  /** Idle connections are distinct and exist. */
  ghost predicate IdleDistinct(s: State) {
    && (forall i, j :: 0 <= i < j < |s.pool.idle| ==> s.pool.idle[i].client != s.pool.idle[j].client)
    && (forall i :: 0 <= i < |s.pool.idle| ==> s.pool.idle[i].client < s.created)
  }

  /** A call's connection exists, is not idle, not closed, and nobody else's. */
  ghost predicate CallsOwn(s: State) {
    && (forall g: CallId :: HasClient(s.At(g)) ==>
          s.At(g).client < s.created && s.At(g).client !in IdleClients(s.pool) && s.At(g).client !in s.shut)
    && (forall g: CallId, h: CallId ::
          HasClient(s.At(g)) && HasClient(s.At(h)) && s.At(g).client == s.At(h).client ==> g == h)
  }

  ghost predicate IsPlaced(s: State, c: Client) {
    c in IdleClients(s.pool) || c in s.shut || exists g: CallId :: HasClient(s.At(g)) && s.At(g).client == c
  }

  /** Closed connections are not idle, and every connection made is idle, with a call, or closed. */
  ghost predicate AllPlaced(s: State) {
    && s.shut !! IdleClients(s.pool)
    && (forall c :: c in s.shut ==> c < s.created)
    && (forall c: Client :: c < s.created ==> IsPlaced(s, c))
  }

  ghost predicate Owned(s: State) {
    IdleDistinct(s) && CallsOwn(s) && AllPlaced(s)
  }

  ghost predicate Inv(s: State) {
    Capacity(s) && Owned(s)
  }

  // ---- how connections change hands ----

  /** Only call `g` moved. */
  ghost predicate Moved(s: State, s': State, g: CallId) {
    g in s'.calls && s'.calls == s.calls[g := s'.calls[g]]
  }

  lemma OthersStay(s: State, s': State, g: CallId)
    requires Moved(s, s', g)
    ensures forall h: CallId :: h != g ==> s'.At(h) == s.At(h)
  {}

  /** The call keeps its connection, or has none before and after. */
  lemma KeepsConnection(s: State, s': State, g: CallId)
    requires Owned(s) && Moved(s, s', g) && s'.pool.idle == s.pool.idle && s'.created == s.created && s'.shut == s.shut
    requires HasClient(s'.At(g)) == HasClient(s.At(g)) && (HasClient(s.At(g)) ==> s'.At(g).client == s.At(g).client)
    ensures Owned(s')
  {
    OthersStay(s, s', g);
    forall c: Client | c < s'.created
      ensures IsPlaced(s', c)
    {
      assert c < s.created ==> IsPlaced(s, c);
      if c !in IdleClients(s.pool) && c !in s.shut {
        var h: CallId :| HasClient(s.At(h)) && s.At(h).client == c;
        assert HasClient(s'.At(h)) && s'.At(h).client == c;
      }
    }
  }

  lemma LastIdle(p: Pool, rest: Pool, c: Client)
    requires p.idle != [] && rest.idle == p.idle[..|p.idle| - 1] && c == p.idle[|p.idle| - 1].client
    requires forall i, j :: 0 <= i < j < |p.idle| ==> p.idle[i].client != p.idle[j].client
    ensures IdleClients(p) == IdleClients(rest) + {c} && c !in IdleClients(rest)
  {}

  /** The newest idle connection goes to the call. */
  lemma TakesIdle(s: State, s': State, g: CallId, c: Client)
    requires Owned(s) && Moved(s, s', g) && s'.created == s.created && s'.shut == s.shut
    requires s.pool.idle != [] && s'.pool.idle == s.pool.idle[..|s.pool.idle| - 1]
    requires c == s.pool.idle[|s.pool.idle| - 1].client
    requires !HasClient(s.At(g)) && HasClient(s'.At(g)) && s'.At(g).client == c
    ensures Owned(s')
  {
    OthersStay(s, s', g);
    LastIdle(s.pool, s'.pool, c);
    forall x: Client | x < s'.created
      ensures IsPlaced(s', x)
    {
      assert x < s.created ==> IsPlaced(s, x);
      if x == c {
        assert HasClient(s'.At(g)) && s'.At(g).client == x;
      } else if x !in IdleClients(s.pool) && x !in s.shut {
        var h: CallId :| HasClient(s.At(h)) && s.At(h).client == x;
        assert HasClient(s'.At(h)) && s'.At(h).client == x;
      }
    }
  }

  /** A new connection goes to the call. */
  lemma TakesNew(s: State, s': State, g: CallId)
    requires Owned(s) && Moved(s, s', g)
    requires s'.created == s.created + 1 && s'.shut == s.shut && s'.pool.idle == s.pool.idle
    requires !HasClient(s.At(g)) && HasClient(s'.At(g)) && s'.At(g).client == s.created
    ensures Owned(s')
  {
    OthersStay(s, s', g);
    forall x: Client | x < s'.created
      ensures IsPlaced(s', x)
    {
      assert x < s.created ==> IsPlaced(s, x);
      if x == s.created {
        assert HasClient(s'.At(g)) && s'.At(g).client == x;
      } else if x !in IdleClients(s.pool) && x !in s.shut {
        var h: CallId :| HasClient(s.At(h)) && s.At(h).client == x;
        assert HasClient(s'.At(h)) && s'.At(h).client == x;
      }
    }
  }

  /** The call's connection is closed. */
  lemma Discards(s: State, s': State, g: CallId, c: Client)
    requires Owned(s) && Moved(s, s', g)
    requires s'.created == s.created && s'.shut == s.shut + {c} && s'.pool.idle == s.pool.idle
    requires HasClient(s.At(g)) && s.At(g).client == c && !HasClient(s'.At(g))
    ensures Owned(s')
  {
    OthersStay(s, s', g);
    forall x: Client | x < s'.created
      ensures IsPlaced(s', x)
    {
      assert x < s.created ==> IsPlaced(s, x);
      if x != c && x !in IdleClients(s.pool) && x !in s.shut {
        var h: CallId :| HasClient(s.At(h)) && s.At(h).client == x;
        assert HasClient(s'.At(h)) && s'.At(h).client == x;
      }
    }
  }

  lemma AddIdle(p: Pool, more: Pool, c: Client, now: Time)
    requires more.idle == p.idle + [Conn(c, now)] && c !in IdleClients(p)
    requires forall i, j :: 0 <= i < j < |p.idle| ==> p.idle[i].client != p.idle[j].client
    ensures IdleClients(more) == IdleClients(p) + {c}
    ensures forall i, j :: 0 <= i < j < |more.idle| ==> more.idle[i].client != more.idle[j].client
  {
    assert forall i :: 0 <= i < |p.idle| ==> p.idle[i].client in IdleClients(p) && more.idle[i] == p.idle[i];
    assert more.idle[|p.idle|].client == c;
    forall x | x in IdleClients(p) + {c} ensures x in IdleClients(more) {
      if x != c {
        var i :| 0 <= i < |p.idle| && p.idle[i].client == x;
        assert more.idle[i].client == x;
      }
    }
  }

  /** The call's connection becomes the newest idle one. */
  lemma GivesBack(s: State, s': State, g: CallId, c: Client, now: Time)
    requires Owned(s) && Moved(s, s', g) && s'.created == s.created && s'.shut == s.shut
    requires HasClient(s.At(g)) && s.At(g).client == c && !HasClient(s'.At(g))
    requires s'.pool.idle == s.pool.idle + [Conn(c, now)]
    ensures Owned(s')
  {
    OthersStay(s, s', g);
    AddIdle(s.pool, s'.pool, c, now);
    forall x: Client | x < s'.created
      ensures IsPlaced(s', x)
    {
      assert x < s.created ==> IsPlaced(s, x);
      if x != c && x !in IdleClients(s.pool) && x !in s.shut {
        var h: CallId :| HasClient(s.At(h)) && s.At(h).client == x;
        assert HasClient(s'.At(h)) && s'.At(h).client == x;
      }
    }
  }

  lemma ShutsIdle(s: State)
    requires Owned(s)
    ensures Owned(Next(s, Close))
  {
    var s' := Next(s, Close);
    assert forall h: CallId :: s'.At(h) == s.At(h);
    forall c: Client | c < s'.created ensures IsPlaced(s', c) {
      assert IsPlaced(s, c);
    }
  }

  lemma StepOwned(s: State, mv: Move)
    requires Inv(s)
    ensures Owned(Next(s, mv))
  {
    var s' := Next(s, mv);
    match mv
    case Begin(g, admitted) =>
      if s.At(g).NotStarted? {
        KeepsConnection(s, s', g);
      }
    case Turn(g, stale) =>
      if s.At(g).ClosingStale? {
        Discards(s, s', g, s.At(g).client);
      } else if s.At(g).Looping? {
        if s.pool.idle != [] {
          TakesIdle(s, s', g, s.pool.idle[|s.pool.idle| - 1].client);
        } else {
          KeepsConnection(s, s', g);
        }
      }
    case Factory(g, ok) =>
      if s.At(g).Creating? {
        if ok {
          TakesNew(s, s', g);
        } else {
          KeepsConnection(s, s', g);
        }
      }
    case Put(g, connected, now) =>
      if s.At(g).Held? {
        if s'.pool.idle == s.pool.idle {
          Discards(s, s', g, s.At(g).client);
        } else {
          GivesBack(s, s', g, s.At(g).client, now);
        }
      }
    case Close => ShutsIdle(s);
  }

  lemma CountedMoved(s: State, s': State, g: CallId)
    requires Moved(s, s', g)
    ensures |Counted(s')| == |Counted(s)| + (if Counts(s'.At(g)) then 1 else 0) - (if Counts(s.At(g)) then 1 else 0)
  {
    assert Counted(s') == if Counts(s'.At(g)) then Counted(s) + {g} else Counted(s) - {g};
    assert g in Counted(s) <==> Counts(s.At(g));
  }

  lemma StepCapacity(s: State, mv: Move)
    requires Capacity(s)
    ensures Capacity(Next(s, mv))
  {
    var s' := Next(s, mv);
    if mv.Close? {
      assert Counted(s') == Counted(s);
    } else if s' != s {
      CountedMoved(s, s', mv.g);
    }
  }

  lemma {:induction false} RunInv(maxSize: int, maxIdle: int, moves: seq<Move>)
    ensures Inv(Run(maxSize, maxIdle, moves))
  {
    if moves == [] {
      assert Counted(Init(maxSize, maxIdle)) == {};
    } else {
      var s := Run(maxSize, maxIdle, moves[..|moves| - 1]);
      RunInv(maxSize, maxIdle, moves[..|moves| - 1]);
      StepCapacity(s, moves[|moves| - 1]);
      StepOwned(s, moves[|moves| - 1]);
    }
  }

  ghost predicate IsIdle(s: State, c: Client) { c in IdleClients(s.pool) }
  ghost predicate IsOut(s: State, c: Client) { exists g: CallId :: s.At(g).Held? && s.At(g).client == c }
  ghost predicate IsClosing(s: State, c: Client) {
    c in s.shut || exists g: CallId :: s.At(g).ClosingStale? && s.At(g).client == c
  }

  /**
   * In every interleaving whose callers Put each connection once: the limits hold; every connection ever made is
   * in exactly one of idle, checked out, closed or being closed; no two callers hold one; and a closed pool has
   * no idle connections.
   */
  lemma PoolSafe(maxSize: int, maxIdle: int, moves: seq<Move>)
    ensures var s := Run(maxSize, maxIdle, moves);
            && 0 <= s.pool.active && s.pool.active + |s.pool.idle| <= s.pool.maxSize && |s.pool.idle| <= s.pool.maxIdle
            && (s.pool.closed ==> s.pool.idle == [])
            && (forall c: Client :: c < s.created <==> IsIdle(s, c) || IsOut(s, c) || IsClosing(s, c))
            && (forall c: Client ::
                  && !(IsIdle(s, c) && IsOut(s, c)) && !(IsIdle(s, c) && IsClosing(s, c))
                  && !(IsOut(s, c) && IsClosing(s, c)))
            && (forall i, j :: 0 <= i < j < |s.pool.idle| ==> s.pool.idle[i].client != s.pool.idle[j].client)
            && (forall g: CallId, h: CallId ::
                  s.At(g).Held? && s.At(h).Held? && s.At(g).client == s.At(h).client ==> g == h)
  {
    RunInv(maxSize, maxIdle, moves);
    var s := Run(maxSize, maxIdle, moves);
    forall c: Client ensures c < s.created <==> IsIdle(s, c) || IsOut(s, c) || IsClosing(s, c) {
      assert c < s.created ==> IsPlaced(s, c);
    }
  }

  /** While the pool is open its count is exactly the creations in flight and the connections out. */
  lemma ActiveIsExact(maxSize: int, maxIdle: int, moves: seq<Move>)
    ensures var s := Run(maxSize, maxIdle, moves);
            s.pool.active == |Counted(s)| + s.abandoned && (!s.pool.closed ==> s.abandoned == 0)
  {
    RunInv(maxSize, maxIdle, moves);
  }

  /** A connection given back after the Close is counted for ever, though nobody has it. */
  lemma LateReturnStaysCounted()
    ensures var s := Run(1, 1, [Begin(0, true), Turn(0, false), Factory(0, true), Close, Put(0, true, 0)]);
            s.pool.closed && s.abandoned == 1 && s.pool.active == 1 && s.At(0).Over? && |Counted(s)| == 0
  {
    var moves := [Begin(0, true), Turn(0, false), Factory(0, true), Close, Put(0, true, 0)];
    var s1 := Next(Init(1, 1), Begin(0, true));
    var s2 := Next(s1, Turn(0, false));
    var s3 := Next(s2, Factory(0, true));
    assert moves[..4][..3] == moves[..3] && moves[..3][..2] == moves[..2] && moves[..2][..1] == moves[..1];
    assert moves[..1][..0] == [];
    assert Run(1, 1, moves[..1]) == s1;
    assert Run(1, 1, moves[..2]) == s2;
    assert Run(1, 1, moves[..3]) == s3;
    assert Run(1, 1, moves[..4]) == Next(s3, Close);
    RunInv(1, 1, moves);
  }

  /** A call that starts on a closed pool is over at once and never gets a connection. */
  lemma {:induction false} ClosedAtEntryNeverConnects(s: State, g: CallId, admitted: bool, moves: seq<Move>)
    requires s.pool.closed && s.At(g).NotStarted?
    ensures Continue(Next(s, Begin(g, admitted)), moves).At(g).Over?
  {
    if moves != [] {
      ClosedAtEntryNeverConnects(s, g, admitted, moves[..|moves| - 1]);
    }
  }

  function Continue(s: State, moves: seq<Move>): State {
    if moves == [] then s else Next(Continue(s, moves[..|moves| - 1]), moves[|moves| - 1])
  }

  // ---- what a closed pool still hands out ----

  ghost predicate SomeCreating(s: State) {
    exists h: CallId :: s.At(h).Creating?
  }

  /** The call has passed the closed check and can still find room, now or once a creation in flight fails. */
  ghost predicate MayConnect(s: State, g: CallId) {
    || s.At(g).Held? || s.At(g).Creating?
    || ((s.At(g).Looping? || s.At(g).ClosingStale?) && (s.pool.active < s.pool.maxSize || SomeCreating(s)))
  }

  /** In a closed pool without room or creations in flight nothing makes room again. */
  ghost predicate NoRoom(s: State) {
    s.pool.active >= s.pool.maxSize && !SomeCreating(s)
  }

  lemma StaysClosed(s: State, mv: Move)
    requires s.pool.closed && s.pool.idle == []
    ensures var s' := Next(s, mv); s'.pool.closed && s'.pool.idle == [] && s'.pool.maxSize == s.pool.maxSize
    ensures NoRoom(s) ==> NoRoom(Next(s, mv))
  {
    if NoRoom(s) {
      var s' := Next(s, mv);
      forall h: CallId ensures !s'.At(h).Creating? {
        assert !s.At(h).Creating?;
      }
    }
  }

  lemma StepCannotConnect(s: State, mv: Move, g: CallId)
    requires s.pool.closed && s.pool.idle == [] && !MayConnect(s, g)
    ensures !MayConnect(Next(s, mv), g)
  {
    StaysClosed(s, mv);
  }

  lemma {:induction false} CannotConnect(s: State, more: seq<Move>, g: CallId)
    requires s.pool.closed && s.pool.idle == [] && !MayConnect(s, g)
    ensures var s' := Continue(s, more); s'.pool.closed && s'.pool.idle == [] && !MayConnect(s', g)
  {
    if more != [] {
      var now := Continue(s, more[..|more| - 1]);
      CannotConnect(s, more[..|more| - 1], g);
      StaysClosed(now, more[|more| - 1]);
      StepCannotConnect(now, more[|more| - 1], g);
    }
  }

  lemma {:induction false} Prepend(s: State, mv: Move, rest: seq<Move>)
    ensures Continue(s, [mv] + rest) == Continue(Next(s, mv), rest)
  {
    var all := [mv] + rest;
    if rest == [] {
      assert all[..0] == [] && Continue(s, all[..0]) == s;
    } else {
      Prepend(s, mv, rest[..|rest| - 1]);
      assert all[..|rest|] == [mv] + rest[..|rest| - 1];
    }
  }

  /** The way to a connection: finish closing, let a creation fail if there is no room, reserve, create. */
  lemma CanConnect(s: State, g: CallId) returns (more: seq<Move>)
    requires s.pool.closed && s.pool.idle == [] && s.pool.active <= s.pool.maxSize && MayConnect(s, g)
    ensures Continue(s, more).At(g).Held?
    decreases if s.At(g).ClosingStale? then 3
              else if s.At(g).Looping? then if s.pool.active < s.pool.maxSize then 1 else 2
              else 0
  {
    if s.At(g).Held? {
      more := [];
    } else if s.At(g).Creating? {
      more := [Factory(g, true)];
      Prepend(s, Factory(g, true), []);
    } else {
      var mv := Turn(g, false);
      if s.At(g).Looping? && s.pool.active >= s.pool.maxSize {
        var h: CallId :| s.At(h).Creating?;
        mv := Factory(h, false);
      } else if s.At(g).ClosingStale? && SomeCreating(s) {
        var h: CallId :| s.At(h).Creating?;
        assert Next(s, mv).At(h).Creating?;
      }
      var rest := CanConnect(Next(s, mv), g);
      more := [mv] + rest;
      Prepend(s, mv, rest);
    }
  }

  ghost predicate GetsConnection(s: State, more: seq<Move>, g: CallId) {
    Continue(s, more).At(g).Held?
  }

  /**
   * Exactly when a closed pool still hands a call a connection: it holds one or is creating one, or it passed the
   * check before the Close and there is room, now or after a creation that fails.
   */
  lemma ClosedPoolConnectsIff(maxSize: int, maxIdle: int, moves: seq<Move>, g: CallId)
    requires Run(maxSize, maxIdle, moves).pool.closed
    ensures var s := Run(maxSize, maxIdle, moves); (exists more :: GetsConnection(s, more, g)) <==> MayConnect(s, g)
  {
    var s := Run(maxSize, maxIdle, moves);
    RunInv(maxSize, maxIdle, moves);
    if MayConnect(s, g) {
      var more := CanConnect(s, g);
      assert GetsConnection(s, more, g);
    } else {
      forall more ensures !GetsConnection(s, more, g) {
        CannotConnect(s, more, g);
      }
    }
  }

  /** One such call: the Close comes between its check and its first turn. */
  lemma ClosedPoolStillConnects()
    ensures var s := Run(1, 1, [Begin(0, true), Close]);
            && s.pool.closed && s.At(0).Looping?
            && exists more :: GetsConnection(s, more, 0)
  {
    var moves := [Begin(0, true), Close];
    assert moves[..1] == [Begin(0, true)] && moves[..1][..0] == [];
    assert Run(1, 1, moves[..1]) == Next(Init(1, 1), Begin(0, true));
    ClosedPoolConnectsIff(1, 1, moves, 0);
  }
}

/** The pool as the source keeps it. */
module ConnectionPools {
  import opened AttachmentTypes
  import opened PoolSpec
  import opened Breakers
  import BreakerSpec

  datatype GetResult =
    | Got(client: Client)
    | ErrPoolClosed | ErrCircuitOpen | ErrRateLimit | ErrPoolExhausted | ErrFactory

  class ConnectionPool {
    const maxSize: int
    const maxIdle: int
    const idleTime: int
    const breaker: CircuitBreaker
    var idle: seq<Conn>
    var active: int
    var closed: bool

    ghost function Value(): Pool
      reads this
    {
      Pool(maxSize, maxIdle, idle, active, closed)
    }

    constructor (maxSize: int, maxIdle: int, idleTime: int, threshold: int, timeout: int)
      ensures (this.maxSize, this.maxIdle) == Limits(maxSize, maxIdle)
      ensures 1 <= this.maxIdle <= this.maxSize
      ensures Value() == Pool(this.maxSize, this.maxIdle, [], 0, false)
      ensures this.idleTime == if idleTime == 0 then 300 * 1_000_000_000 else idleTime
      ensures fresh(breaker)
      ensures breaker.Value() == BreakerSpec.NewBreaker(if threshold <= 0 then 5 else threshold,
                                                        if timeout == 0 then 30 * 1_000_000_000 else timeout)
    {
      var size := if maxSize <= 0 then 10 else maxSize;
      var most := if maxIdle <= 0 then 5 else maxIdle;
      this.maxSize := size;
      this.maxIdle := if most > size then size else most;
      this.idleTime := if idleTime == 0 then 300 * 1_000_000_000 else idleTime;
      breaker := new CircuitBreaker(if threshold <= 0 then 5 else threshold,
                                    if timeout == 0 then 30 * 1_000_000_000 else timeout);
      idle, active, closed := [], 0, false;
    }

    /** `factory` says whether the configuration has one; the result is null on an error. */
    static method NewConnectionPool(factory: bool, maxSize: int, maxIdle: int, idleTime: int, threshold: int,
                                    timeout: int)
      returns (p: ConnectionPool?)
      ensures p == null <==> !factory
      ensures p != null ==>
                fresh(p) && p.Value() == Pool(Limits(maxSize, maxIdle).0, Limits(maxSize, maxIdle).1, [], 0, false)
    {
      if !factory {
        return null;
      }
      p := new ConnectionPool(maxSize, maxIdle, idleTime, threshold, timeout);
    }

    predicate IsStale(conn: Conn, connected: Client -> bool, now: Time) {
      now - conn.lastUsed > idleTime || !connected(conn.client)
    }

    /** `unlimited` is the rate limiter's answer, `made` the factory's; `dropped` are the connections closed. */
    method Get(unlimited: bool, connected: Client -> bool, made: Option<Client>, now: Time)
      returns (r: GetResult, dropped: seq<Client>)
      modifies this`idle, this`active, breaker
      ensures old(closed) ==> r == ErrPoolClosed && Value() == old(Value()) && breaker.Value() == old(breaker.Value())
      ensures !old(closed) ==>
                var (asked, allowed) := BreakerSpec.Allow(old(breaker.Value()), now);
                if !allowed || !unlimited then
                  && r == (if !allowed then ErrCircuitOpen else ErrRateLimit)
                  && Value() == old(Value()) && breaker.Value() == asked
                else
                  var (p, taken) := TakeUntilLive(old(Value()), (c: Conn) => IsStale(c, connected, now));
                  match taken
                  case Reused(c) =>
                    r == Got(c) && Value() == p && breaker.Value() == asked && |dropped| + |idle| + 1 == |old(idle)|
                  case Exhausted =>
                    r == ErrPoolExhausted && Value() == p && breaker.Value() == asked && |dropped| == |old(idle)|
                  case MayCreate =>
                    |dropped| == |old(idle)| &&
                    if made.Some? then
                      r == Got(made.value) && Value() == p && breaker.Value() == BreakerSpec.RecordSuccess(asked)
                    else
                      && r == ErrFactory && Value() == CreateFailed(p)
                      && breaker.Value() == BreakerSpec.RecordFailure(asked, now)
                  case PoppedStale(_) => false
      ensures forall i :: 0 <= i < |dropped| ==> i < |old(idle)| && dropped[i] == old(idle)[|old(idle)| - 1 - i].client
    {
      dropped := [];
      if closed {
        return ErrPoolClosed, [];
      }
      var allowed := breaker.Allow(now);
      if !allowed {
        return ErrCircuitOpen, [];
      }
      if !unlimited {
        return ErrRateLimit, [];
      }
      ghost var stale := (c: Conn) => IsStale(c, connected, now);
      while |idle| > 0
        invariant closed == old(closed) && active == old(active)
        invariant breaker.Value() == BreakerSpec.Allow(old(breaker.Value()), now).0
        invariant TakeUntilLive(Value(), stale) == TakeUntilLive(old(Value()), stale)
        invariant |dropped| <= |old(idle)| && idle == old(idle)[..|old(idle)| - |dropped|]
        invariant forall i :: 0 <= i < |dropped| ==> dropped[i] == old(idle)[|old(idle)| - 1 - i].client
        decreases |idle|
      {
        var conn := idle[|idle| - 1];
        idle := idle[..|idle| - 1];
        if IsStale(conn, connected, now) {
          dropped := dropped + [conn.client];
          continue;
        }
        active := active + 1;
        return Got(conn.client), dropped;
      }
      if active >= maxSize {
        return ErrPoolExhausted, dropped;
      }
      active := active + 1;
      if made.None? {
        active := active - 1;
        breaker.RecordFailure(now);
        return ErrFactory, dropped;
      }
      breaker.RecordSuccess();
      r := Got(made.value);
    }

    /** `c` is the connection given back; the result says whether it was kept. */
    method Put(c: Client, connected: bool, now: Time) returns (kept: bool)
      modifies this`idle, this`active
      ensures (Value(), kept) == Return(old(Value()), c, connected, now)
    {
      if closed {
        return false;
      }
      active := active - 1;
      if |idle| >= maxIdle || !connected {
        return false;
      }
      idle := idle + [Conn(c, now)];
      kept := true;
    }

    method Close() returns (dropped: seq<Client>)
      modifies this`idle, this`closed
      ensures Value() == Shut(old(Value()))
      ensures dropped
           == if old(closed) then [] else seq(|old(idle)|, i requires 0 <= i < |old(idle)| => old(idle)[i].client)
    {
      dropped := [];
      if closed {
        return;
      }
      closed := true;
      for i := 0 to |idle|
        invariant |dropped| == i && forall j :: 0 <= j < i ==> dropped[j] == idle[j].client
      {
        dropped := dropped + [idle[i].client];
      }
      idle := [];
    }
  }
}
