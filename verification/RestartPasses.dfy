/** A restart seen through Publish, Unpublish and the reconciler's passes, which begin at once after it. */
module RestartPasses {
  import opened AttachmentTypes
  import opened ManagerSpec
  import opened ControllerSpec
  import opened ReconcileSpec
  import opened RebuildSpec
  import opened Runs
  import opened Restart
  import opened RunAccounts

  datatype Deed = Answer(call: Call) | Reconcile(lister: NodeId -> NodeAnswer)
  datatype Act = Act(at: Time, deed: Deed)

  function AfterAct(c: Config, s: Tables, a: Act): Tables {
    match a.deed
    case Answer(call) => After(c.grace, s, TimedCall(a.at, call))
    case Reconcile(lister) => Pass(s, lister, c.reconcileGrace, a.at)
  }

  /** A pass shows nothing by itself. */
  function Seen(c: Config, s: Tables, a: Act): Option<Code> {
    if a.deed.Answer? then Some(Reply(c.grace, s, TimedCall(a.at, a.deed.call))) else None
  }

  function AllSeen(c: Config, s: Tables, acts: seq<Act>): seq<Option<Code>>
    decreases |acts|
  {
    if acts == [] then [] else [Seen(c, s, acts[0])] + AllSeen(c, AfterAct(c, s, acts[0]), acts[1..])
  }

  /** Times do not run back, and every Publish carries the volume's one mode. */
  ghost predicate Orderly(mode: VolumeId -> AccessMode, acts: seq<Act>, from: Time)
    decreases |acts|
  {
    acts != [] ==>
      && from <= acts[0].at && (acts[0].deed.Answer? ==> KeepsMode(mode, acts[0].deed.call))
      && Orderly(mode, acts[1..], acts[0].at)
  }

  // ---- two managers that nothing tells apart ----

  ghost predicate SamePrimaries(s: Tables, t: Tables) {
    forall v :: v in s.attachments && v in t.attachments ==> s.attachments[v].nodeId == t.attachments[v].nodeId
  }

  /** For a pass every timestamp counts, whatever the volume's mode. */
  const AnyMode: VolumeId -> AccessMode := (v: VolumeId) => RWO

  ghost predicate Twins(c: Config, mode: VolumeId -> AccessMode, s: Tables, t: Tables, now: Time) {
    && Alike(c.grace, mode, s, t, now) && AlikeGrace(c.reconcileGrace, AnyMode, s, t, now)
    && SamePrimaries(s, t) && "" !in s.attachments
  }

  /** Without clearing, a Publish leaves the primary node; otherwise the requested node is alone. */
  lemma PublishPrimary(grace: int, s: Tables, req: PublishRequest, w: World, now: Time)
    requires s.Valid()
    ensures var v := req.volumeId;
            var p := Publish(grace, s, req, w, now);
            v in p.tables.attachments ==>
              p.tables.attachments[v].nodeId
                == if v in s.attachments && p.cleared == Kept then s.attachments[v].nodeId else req.nodeId
  {
    var v := req.volumeId;
    var p := Publish(grace, s, req, w, now);
    PublishFrame(grace, s, req, w, now);
    if v in p.tables.attachments && !(v in s.attachments && p.cleared == Kept) {
      if p.code == OK {
        PublishOk(grace, s, req, w, now);
        assert p.tables.On(v, p.tables.attachments[v].nodes[0].nodeId);
      } else {
        PublishRefused(grace, s, req, w, now);
      }
    } else if v in s.attachments && !s.On(v, req.nodeId) {
      AddSecondaryEffect(s, v, req.nodeId, req.timeout, now);
    }
  }

  lemma PublishTwins(c: Config, mode: VolumeId -> AccessMode, s: Tables, t: Tables, a: Act, now: Time)
    requires Twins(c, mode, s, t, now) && now <= a.at && a.deed.Answer? && a.deed.call.CallPublish?
    requires KeepsMode(mode, a.deed.call)
    ensures Twins(c, mode, AfterAct(c, s, a), AfterAct(c, t, a), a.at)
  {
    var req, w, call := a.deed.call.req, a.deed.call.w, TimedCall(a.at, a.deed.call);
    var s', t' := AfterAct(c, s, a), AfterAct(c, t, a);
    AlikeReplies(c.grace, mode, s, t, call, now);
    AlikePublish(c.grace, mode, s, t, call, now);
    PublishTimestamps(c.grace, s, req, w, a.at);
    PublishTimestamps(c.grace, t, req, w, a.at);
    GraceFrom(c.reconcileGrace, AnyMode, s, s', t, t', req.volumeId, now, a.at);
    PublishPrimary(c.grace, s, req, w, a.at);
    PublishPrimary(c.grace, t, req, w, a.at);
    PublishFrame(c.grace, s, req, w, a.at);
    PublishFrame(c.grace, t, req, w, a.at);
    PrimariesFrom(s, s', t, t', req.volumeId);
  }

  lemma PrimariesFrom(s: Tables, s': Tables, t: Tables, t': Tables, v: VolumeId)
    requires SamePrimaries(s, t) && "" !in s.attachments && (v == "" ==> s' == s)
    requires s'.attachments - {v} == s.attachments - {v} && t'.attachments - {v} == t.attachments - {v}
    requires v in s'.attachments && v in t'.attachments ==> s'.attachments[v].nodeId == t'.attachments[v].nodeId
    ensures SamePrimaries(s', t') && "" !in s'.attachments
  {
    SameElsewhere(s'.attachments, s.attachments, v);
    SameElsewhere(t'.attachments, t.attachments, v);
  }

  lemma UnpublishTwins(c: Config, mode: VolumeId -> AccessMode, s: Tables, t: Tables, a: Act, now: Time)
    requires Twins(c, mode, s, t, now) && now <= a.at && a.deed.Answer? && a.deed.call.CallUnpublish?
    ensures Twins(c, mode, AfterAct(c, s, a), AfterAct(c, t, a), a.at)
  {
    var v, n := a.deed.call.vol, a.deed.call.node;
    var s', t' := AfterAct(c, s, a), AfterAct(c, t, a);
    AlikeUnpublish(c.grace, mode, s, t, TimedCall(a.at, a.deed.call), now);
    if s' == s && t' == t {
      GraceFrom(c.reconcileGrace, AnyMode, s, s', t, t', v, now, a.at);
    } else {
      AlikeRemove(s, t, v, n, a.at);
      GraceFrom(c.reconcileGrace, AnyMode, s, s', t, t', v, now, a.at);
      RemovedPrimary(s, t, v, n, a.at);
      PrimariesFrom(s, s', t, t', v);
    }
  }

  lemma RemovedPrimary(s: Tables, t: Tables, v: VolumeId, n: NodeId, at: Time)
    requires SamePrimaries(s, t) && (v in s.attachments <==> v in t.attachments)
    requires v in s.attachments ==> Similar(s.attachments[v], t.attachments[v])
    ensures var s', t' := RemoveNode(s, v, n, at).0, RemoveNode(t, v, n, at).0;
            v in s'.attachments && v in t'.attachments ==> s'.attachments[v].nodeId == t'.attachments[v].nodeId
  {
    if v in s.attachments && s.attachments[v].AttachedTo(n) {
      DroppedEffect(s.attachments[v], n);
      DroppedEffect(t.attachments[v], n);
      AlikeRemove(s, t, v, n, at);
      var s', t' := RemoveNode(s, v, n, at).0, RemoveNode(t, v, n, at).0;
      if v in s'.attachments && v in t'.attachments {
        SimilarPrimary(s'.attachments[v], t'.attachments[v]);
      }
    }
  }

  lemma SameStale(c: Config, mode: VolumeId -> AccessMode, s: Tables, t: Tables, lister: NodeId -> NodeAnswer,
                  at: Time, now: Time)
    requires Twins(c, mode, s, t, now) && now <= at && c.reconcileGrace > 0
    ensures StaleAmong(s, s.attachments.Keys, lister, c.reconcileGrace, at)
         == StaleAmong(t, t.attachments.Keys, lister, c.reconcileGrace, at)
  {
    forall v | v in s.attachments
      ensures s.WithinGrace(v, c.reconcileGrace, at) <==> t.WithinGrace(v, c.reconcileGrace, at)
    {
      assert UsesGrace(c.reconcileGrace, AnyMode, v);
    }
  }

  lemma ClearTwins(c: Config, mode: VolumeId -> AccessMode, s: Tables, t: Tables, gone: set<VolumeId>,
                   at: Time, now: Time)
    requires Twins(c, mode, s, t, now) && now <= at
    ensures Twins(c, mode, Clear(s, gone, at), Clear(t, gone, at), at)
  {
    ClearGrace(c.grace, mode, s, t, gone, at, now);
    ClearGrace(c.reconcileGrace, AnyMode, s, t, gone, at, now);
    ClearEntries(mode, s, t, gone, at);
  }

  lemma ClearGrace(grace: int, mode: VolumeId -> AccessMode, s: Tables, t: Tables, gone: set<VolumeId>,
                   at: Time, now: Time)
    requires AlikeGrace(grace, mode, s, t, now) && now <= at
    ensures AlikeGrace(grace, mode, Clear(s, gone, at), Clear(t, gone, at), at)
  {}

  lemma ClearEntries(mode: VolumeId -> AccessMode, s: Tables, t: Tables, gone: set<VolumeId>, at: Time)
    requires AlikeEntries(mode, s, t)
    ensures AlikeEntries(mode, Clear(s, gone, at), Clear(t, gone, at))
  {
    assert Clear(s, gone, at).attachments.Keys == Clear(t, gone, at).attachments.Keys;
  }

  lemma {:induction false} TwinsForever(c: Config, mode: VolumeId -> AccessMode, s: Tables, t: Tables,
                                        acts: seq<Act>, now: Time)
    requires Twins(c, mode, s, t, now) && Orderly(mode, acts, now) && c.reconcileGrace > 0
    ensures AllSeen(c, s, acts) == AllSeen(c, t, acts)
    decreases |acts|
  {
    if acts != [] {
      var a := acts[0];
      match a.deed {
        case Answer(call) =>
          AlikeReplies(c.grace, mode, s, t, TimedCall(a.at, call), now);
          if call.CallPublish? {
            PublishTwins(c, mode, s, t, a, now);
          } else {
            UnpublishTwins(c, mode, s, t, a, now);
          }
        case Reconcile(lister) =>
          SameStale(c, mode, s, t, lister, a.at, now);
          ClearTwins(c, mode, s, t, StaleAmong(s, s.attachments.Keys, lister, c.reconcileGrace, a.at), a.at, now);
      }
      TwinsForever(c, mode, AfterAct(c, s, a), AfterAct(c, t, a), acts[1..], a.at);
    }
  }

  // ---- what tells them apart otherwise ----

  ghost predicate Tells(c: Config, mode: VolumeId -> AccessMode, s: Tables, t: Tables, now: Time, acts: seq<Act>) {
    Orderly(mode, acts, now) && AllSeen(c, s, acts) != AllSeen(c, t, acts)
  }

  lemma TellsLater(c: Config, mode: VolumeId -> AccessMode, s: Tables, t: Tables, now: Time, a: Act, rest: seq<Act>)
    requires a.at == now && (a.deed.Answer? ==> KeepsMode(mode, a.deed.call))
    requires Tells(c, mode, AfterAct(c, s, a), AfterAct(c, t, a), now, rest)
    ensures Tells(c, mode, s, t, now, [a] + rest)
  {
    assert ([a] + rest)[1..] == rest;
    assert AllSeen(c, s, [a] + rest)[1..] == AllSeen(c, AfterAct(c, s, a), rest);
    assert AllSeen(c, t, [a] + rest)[1..] == AllSeen(c, AfterAct(c, t, a), rest);
  }

  lemma TellsNow(c: Config, mode: VolumeId -> AccessMode, s: Tables, t: Tables, now: Time, a: Act)
    requires a.at == now && (a.deed.Answer? ==> KeepsMode(mode, a.deed.call)) && Seen(c, s, a) != Seen(c, t, a)
    ensures Tells(c, mode, s, t, now, [a])
  {
    assert [a][1..] == [];
    assert AllSeen(c, s, [a])[0] == Seen(c, s, a) && AllSeen(c, t, [a])[0] == Seen(c, t, a);
  }

  function Request(v: VolumeId, n: NodeId, mode: VolumeId -> AccessMode): PublishRequest {
    PublishRequest(v, n, Some(mode(v)), 1)
  }

  function Bid(v: VolumeId, n: NodeId, mode: VolumeId -> AccessMode, now: Time): Act {
    Act(now, Answer(CallPublish(Request(v, n, mode), Calm)))
  }

  /** A node that the record does not name. */
  lemma OtherNode(r: Record) returns (n: NodeId)
    requires r.Valid()
    ensures n != "" && !r.AttachedTo(n)
  {
    n := r.nodes[0].nodeId + (if |r.nodes| == 2 then r.nodes[1].nodeId else "") + "x";
    assert |n| > |r.nodes[0].nodeId| && (|r.nodes| == 2 ==> |n| > |r.nodes[1].nodeId|);
  }

  /** A volume with no room for another node: two of them, or one that exists and is not to be handed over. */
  ghost predicate Full(c: Config, mode: VolumeId -> AccessMode, s: Tables, v: VolumeId, now: Time) {
    && v in s.attachments
    && (mode(v) == RWX ==> |s.attachments[v].nodes| == 2)
    && (mode(v) == RWO ==> !(c.grace > 0 && s.WithinGrace(v, c.grace, now)))
  }

  lemma FullRefuses(c: Config, mode: VolumeId -> AccessMode, s: Tables, v: VolumeId, n: NodeId, now: Time)
    requires s.Valid() && v != "" && n != "" && Full(c, mode, s, v, now) && !s.On(v, n)
    ensures Seen(c, s, Bid(v, n, mode, now)) == Some(FailedPrecondition)
  {
    PublishDecides(c.grace, s, Request(v, n, mode), Calm, now);
  }

  lemma FreeAccepts(c: Config, mode: VolumeId -> AccessMode, s: Tables, v: VolumeId, n: NodeId, now: Time)
    requires s.Valid() && v != "" && n != "" && v !in s.attachments
    ensures var s' := AfterAct(c, s, Bid(v, n, mode, now));
            && Seen(c, s, Bid(v, n, mode, now)) == Some(OK) && s'.Valid() && s'.detached == s.detached
            && v in s'.attachments && |s'.attachments[v].nodes| == 1 && forall m :: s'.On(v, m) <==> m == n
  {
    PublishDecides(c.grace, s, Request(v, n, mode), Calm, now);
    PublishFrame(c.grace, s, Request(v, n, mode), Calm, now);
  }

  lemma SecondFills(c: Config, mode: VolumeId -> AccessMode, s: Tables, v: VolumeId, n: NodeId, now: Time)
    requires s.Valid() && v != "" && n != "" && v in s.attachments && !s.On(v, n)
    requires mode(v) == RWX && |s.attachments[v].nodes| == 1
    ensures var s' := AfterAct(c, s, Bid(v, n, mode, now));
            && s'.Valid() && Full(c, mode, s', v, now) && Seen(c, s, Bid(v, n, mode, now)) == Some(OK)
            && s'.On(v, n)
  {
    PublishDecides(c.grace, s, Request(v, n, mode), Calm, now);
    PublishOk(c.grace, s, Request(v, n, mode), Calm, now);
    PublishFrame(c.grace, s, Request(v, n, mode), Calm, now);
  }

  /** Tracked by one and free for the other: one or two bids show it. */
  lemma TrackedOrFree(c: Config, mode: VolumeId -> AccessMode, s: Tables, t: Tables, v: VolumeId, now: Time)
    returns (acts: seq<Act>)
    requires s.Valid() && t.Valid() && v != "" && v in s.attachments && v !in t.attachments
    requires mode(v) == RWO ==> !(c.grace > 0 && s.WithinGrace(v, c.grace, now))
    ensures Tells(c, mode, s, t, now, acts) && Tells(c, mode, t, s, now, acts)
  {
    var n := OtherNode(s.attachments[v]);
    var a := Bid(v, n, mode, now);
    FreeAccepts(c, mode, t, v, n, now);
    if Full(c, mode, s, v, now) {
      FullRefuses(c, mode, s, v, n, now);
      acts := [a];
      TellsNow(c, mode, s, t, now, a);
    } else {
      SecondFills(c, mode, s, v, n, now);
      acts := ThirdTells(c, mode, AfterAct(c, s, a), AfterAct(c, t, a), v, now);
      TellsLater(c, mode, s, t, now, a, acts);
      TellsLater(c, mode, t, s, now, a, acts);
      acts := [a] + acts;
    }
  }

  lemma ThirdTells(c: Config, mode: VolumeId -> AccessMode, s: Tables, t: Tables, v: VolumeId, now: Time)
    returns (acts: seq<Act>)
    requires s.Valid() && t.Valid() && v != "" && mode(v) == RWX && Full(c, mode, s, v, now)
    requires v in t.attachments && |t.attachments[v].nodes| == 1
    requires forall n :: t.On(v, n) ==> s.On(v, n)
    ensures Tells(c, mode, s, t, now, acts) && Tells(c, mode, t, s, now, acts)
  {
    var n := OtherNode(s.attachments[v]);
    assert !s.On(v, n) && !t.On(v, n);
    FullRefuses(c, mode, s, v, n, now);
    SecondFills(c, mode, t, v, n, now);
    acts := [Bid(v, n, mode, now)];
    TellsNow(c, mode, s, t, now, acts[0]);
    TellsNow(c, mode, t, s, now, acts[0]);
  }

  /** A pass keeps a volume whose timestamp is recent and drops it where the timestamp is lost. */
  lemma RecentStampTold(c: Config, mode: VolumeId -> AccessMode, s: Tables, t: Tables, v: VolumeId, now: Time)
    returns (acts: seq<Act>)
    requires s.Valid() && t.Valid() && v != "" && s.WithinGrace(v, c.reconcileGrace, now) && v !in t.detached
    requires UsesGrace(c.grace, mode, v) ==> !s.WithinGrace(v, c.grace, now)
    requires v in s.attachments <==> v in t.attachments
    ensures Tells(c, mode, s, t, now, acts)
    decreases if v in s.attachments then 0 else 1
  {
    if v in s.attachments {
      var a := Act(now, Reconcile((n: NodeId) => Gone));
      PassRemovesExactlyStale(s, (n: NodeId) => Gone, c.reconcileGrace, now);
      PassRemovesExactlyStale(t, (n: NodeId) => Gone, c.reconcileGrace, now);
      var s', t' := AfterAct(c, s, a), AfterAct(c, t, a);
      acts := TrackedOrFree(c, mode, s', t', v, now);
      TellsLater(c, mode, s, t, now, a, acts);
      acts := [a] + acts;
    } else {
      var a := Bid(v, "a", mode, now);
      FreeAccepts(c, mode, s, v, "a", now);
      FreeAccepts(c, mode, t, v, "a", now);
      acts := RecentStampTold(c, mode, AfterAct(c, s, a), AfterAct(c, t, a), v, now);
      TellsLater(c, mode, s, t, now, a, acts);
      acts := [a] + acts;
    }
  }

  /** A pass drops a migrating volume whose primary node is gone, and keeps it where the other node is primary. */
  lemma OtherPrimaryTold(c: Config, mode: VolumeId -> AccessMode, s: Tables, t: Tables, v: VolumeId, now: Time)
    returns (acts: seq<Act>)
    requires s.Valid() && t.Valid() && v != "" && mode(v) == RWX && v in s.attachments && v in t.attachments
    requires s.attachments[v].nodeId != t.attachments[v].nodeId && !s.WithinGrace(v, c.reconcileGrace, now)
    ensures Tells(c, mode, s, t, now, acts)
  {
    var primary := s.attachments[v].nodeId;
    var lister := (n: NodeId) => if n == primary then Gone else Exists;
    var a := Act(now, Reconcile(lister));
    PassRemovesExactlyStale(s, lister, c.reconcileGrace, now);
    PassRemovesExactlyStale(t, lister, c.reconcileGrace, now);
    acts := TrackedOrFree(c, mode, AfterAct(c, t, a), AfterAct(c, s, a), v, now);
    TellsLater(c, mode, s, t, now, a, acts);
    acts := [a] + acts;
  }

  // ---- exactly when a restart goes unseen ----

  /** The objects list the primary node of every volume first. */
  ghost predicate PrimaryFirst(vas: seq<VolumeAttachment>, s: Tables) {
    forall v :: v in s.attachments && OfVolume(vas, v) != [] ==> OfVolume(vas, v)[0].nodeName == s.attachments[v].nodeId
  }

  /** Nothing is left of a timestamp that a Publish or a pass would look at. */
  ghost predicate NoGraceOpen(c: Config, mode: VolumeId -> AccessMode, s: Tables, now: Time) {
    && (forall v :: UsesGrace(c.grace, mode, v) ==> !s.WithinGrace(v, c.grace, now))
    && (forall v :: v != "" ==> !s.WithinGrace(v, c.reconcileGrace, now))
  }

  lemma RebuiltPrimaries(s: Tables, vas: seq<VolumeAttachment>, pvs: PvModes)
    requires s.Valid() && Mirrors(vas, s)
    ensures SamePrimaries(s, RebuildSpec.Rebuild(EmptyTables, vas, pvs)) <==> PrimaryFirst(vas, s)
    ensures "" !in s.attachments
  {
    var t := RebuildSpec.Rebuild(EmptyTables, vas, pvs);
    RebuildRecovers(s, EmptyTables, vas, pvs);
    assert forall v :: v in t.attachments ==> t.attachments[v].nodeId == OfVolume(vas, v)[0].nodeName;
    forall v | v in s.attachments ensures OfVolume(vas, v) != [] && v in t.attachments {
      assert v in t.attachments;
    }
  }

  lemma CallsTell(c: Config, mode: VolumeId -> AccessMode, s: Tables, t: Tables, now: Time, calls: seq<TimedCall>)
    returns (acts: seq<Act>)
    requires WellTimed(calls, now) && forall i :: 0 <= i < |calls| ==> KeepsMode(mode, calls[i].call)
    ensures Orderly(mode, acts, now) && |acts| == |calls|
    ensures Replies(c.grace, s, calls) != Replies(c.grace, t, calls) ==> AllSeen(c, s, acts) != AllSeen(c, t, acts)
    decreases |calls|
  {
    if calls == [] {
      acts := [];
    } else {
      var a := Act(calls[0].at, Answer(calls[0].call));
      var rest := CallsTell(c, mode, After(c.grace, s, calls[0]), After(c.grace, t, calls[0]), calls[0].at, calls[1..]);
      acts := [a] + rest;
      assert acts[1..] == rest;
      assert AllSeen(c, s, acts)[0] == Seen(c, s, a) && AllSeen(c, t, acts)[0] == Seen(c, t, a);
      assert AllSeen(c, s, acts)[1..] == AllSeen(c, AfterAct(c, s, a), rest);
      assert AllSeen(c, t, acts)[1..] == AllSeen(c, AfterAct(c, t, a), rest);
    }
  }

  lemma DifferenceTold(c: Config, mode: VolumeId -> AccessMode, s: Tables, t: Tables, now: Time)
    returns (acts: seq<Act>)
    requires s.Valid() && t.Valid() && AlikeEntries(mode, s, t) && t.detached == map[] && "" !in s.attachments
    requires !(NoGraceOpen(c, mode, s, now) && SamePrimaries(s, t))
    ensures Tells(c, mode, s, t, now, acts)
  {
    if v :| UsesGrace(c.grace, mode, v) && s.WithinGrace(v, c.grace, now) {
      var calls := GraceNoticed(c.grace, mode, s, t, v, now);
      acts := CallsTell(c, mode, s, t, now, calls);
    } else if v :| v != "" && s.WithinGrace(v, c.reconcileGrace, now) {
      acts := RecentStampTold(c, mode, s, t, v, now);
    } else {
      var v :| v in s.attachments && v in t.attachments && s.attachments[v].nodeId != t.attachments[v].nodeId;
      if |s.attachments[v].nodes| == 1 {
        SimilarPrimary(s.attachments[v], t.attachments[v]);
      }
      acts := OtherPrimaryTold(c, mode, s, t, v, now);
    }
  }

  lemma RebuiltTwin(c: Config, mode: VolumeId -> AccessMode, s: Tables, vas: seq<VolumeAttachment>, pvs: PvModes,
                    now: Time)
    requires s.Valid() && Mirrors(vas, s) && Exclusive(mode, s) && NoGraceOpen(c, mode, s, now) && PrimaryFirst(vas, s)
    ensures Twins(c, mode, s, RebuildSpec.Rebuild(EmptyTables, vas, pvs), now)
  {
    RebuildRecovers(s, EmptyTables, vas, pvs);
    RebuiltPrimaries(s, vas, pvs);
    assert forall v :: v in s.detached && v != "" ==> !s.WithinGrace(v, c.reconcileGrace, now);
    assert forall v :: v in s.detached && UsesGrace(c.grace, mode, v) ==> !s.WithinGrace(v, c.grace, now);
  }

  /**
   * With passes among the acts a restart goes unseen exactly when no grace period is open, neither for a Publish of an
   * RWO volume nor for the reconciler, and the objects of every volume list its primary node first.
   */
  lemma RestartUnseenIff(c: Config, mode: VolumeId -> AccessMode, s: Tables, vas: seq<VolumeAttachment>, pvs: PvModes,
                         now: Time)
    requires s.Valid() && Mirrors(vas, s) && Exclusive(mode, s) && c.reconcileGrace > 0
    ensures (forall acts :: !Tells(c, mode, s, RebuildSpec.Rebuild(EmptyTables, vas, pvs), now, acts))
            <==> NoGraceOpen(c, mode, s, now) && PrimaryFirst(vas, s)
  {
    var t := RebuildSpec.Rebuild(EmptyTables, vas, pvs);
    if NoGraceOpen(c, mode, s, now) && PrimaryFirst(vas, s) {
      RebuiltTwin(c, mode, s, vas, pvs, now);
      forall acts ensures !Tells(c, mode, s, t, now, acts) {
        if Orderly(mode, acts, now) {
          TwinsForever(c, mode, s, t, acts, now);
        }
      }
    } else {
      RebuildRecovers(s, EmptyTables, vas, pvs);
      RebuiltPrimaries(s, vas, pvs);
      var acts := DifferenceTold(c, mode, s, t, now);
    }
  }

  /** A migration whose target is listed first: a pass after the deletion of the source tells the two apart. */
  lemma ListedOrderTold(mode: VolumeId -> AccessMode, pvs: PvModes)
    requires mode("v") == RWX
    ensures var s := Run(Config(1, 1), Start, MigrationStart(Calm)).tables;
            var vas := [MigrationObjects[1], MigrationObjects[0]];
            && Mirrors(vas, s) && NoGraceOpen(Config(1, 1), mode, s, 2)
            && exists acts :: Tells(Config(1, 1), mode, s, RebuildSpec.Rebuild(EmptyTables, vas, pvs), 2, acts)
  {
    var s := Run(Config(1, 1), Start, MigrationStart(Calm)).tables;
    var vas := [MigrationObjects[1], MigrationObjects[0]];
    MigrationStarted(Calm);
    RunExclusive(Config(1, 1), Start, MigrationStart(Calm), mode);
    TwoObjects(vas[0], vas[1], "v");
    assert forall n :: vas[0].Says("v", n) <==> n == "b";
    assert forall n :: vas[1].Says("v", n) <==> n == "a";
    RestartUnseenIff(Config(1, 1), mode, s, vas, pvs, 2);
    assert OfVolume(vas, "v")[0].nodeName != s.attachments["v"].nodeId;
  }
}
