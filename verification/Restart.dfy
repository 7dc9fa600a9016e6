/** A restarted controller answers as the one it replaced would have. */
module Restart {
  import opened AttachmentTypes
  import opened ManagerSpec
  import opened ControllerSpec
  import opened RebuildSpec
  import opened Runs

  /** The calls the two controllers are compared on. */
  datatype Call = CallPublish(req: PublishRequest, w: World) | CallUnpublish(vol: VolumeId, node: NodeId, validId: bool)
  datatype TimedCall = TimedCall(at: Time, call: Call)

  function After(grace: int, s: Tables, c: TimedCall): Tables {
    match c.call
    case CallPublish(req, w) => ControllerSpec.Publish(grace, s, req, w, c.at).tables
    case CallUnpublish(v, n, validId) => ControllerSpec.Unpublish(s, v, n, validId, c.at).tables
  }

  function Reply(grace: int, s: Tables, c: TimedCall): Code {
    match c.call
    case CallPublish(req, w) => ControllerSpec.Publish(grace, s, req, w, c.at).code
    case CallUnpublish(v, n, validId) => ControllerSpec.Unpublish(s, v, n, validId, c.at).code
  }

  /** The replies to a list of calls, in order. */
  function Replies(grace: int, s: Tables, calls: seq<TimedCall>): seq<Code>
    decreases |calls|
  {
    if calls == [] then [] else [Reply(grace, s, calls[0])] + Replies(grace, After(grace, s, calls[0]), calls[1..])
  }

  function AfterAll(grace: int, s: Tables, calls: seq<TimedCall>): Tables
    decreases |calls|
  {
    if calls == [] then s else AfterAll(grace, After(grace, s, calls[0]), calls[1..])
  }

  /** Times do not run back. */
  ghost predicate WellTimed(calls: seq<TimedCall>, from: Time) {
    calls != [] ==> from <= calls[0].at && WellTimed(calls[1..], calls[0].at)
  }

  /** A Publish carries the volume's one mode. */
  ghost predicate KeepsMode(mode: VolumeId -> AccessMode, c: Call) {
    c.CallPublish? && c.req.capability.Some? ==> c.req.capability.value == mode(c.req.volumeId)
  }

  /** The same volumes on the same nodes, and every RWO volume on one node. */
  ghost predicate AlikeEntries(mode: VolumeId -> AccessMode, s: Tables, t: Tables) {
    && s.attachments.Keys == t.attachments.Keys
    && (forall v :: v in s.attachments ==> Similar(s.attachments[v], t.attachments[v]))
    && Exclusive(mode, s)
  }

  /** Volumes for which a Publish ever looks at the grace period. */
  ghost predicate UsesGrace(grace: int, mode: VolumeId -> AccessMode, v: VolumeId) {
    grace > 0 && mode(v) == RWO && v != ""
  }

  /** The same open grace periods from `now` on: a timestamp that only `s` has is too old to matter. */
  ghost predicate AlikeGrace(grace: int, mode: VolumeId -> AccessMode, s: Tables, t: Tables, now: Time) {
    && (forall v :: v in t.detached ==> v in s.detached && t.detached[v] == s.detached[v])
    && (forall v :: UsesGrace(grace, mode, v) && v in s.detached && v !in t.detached ==> now - s.detached[v] >= grace)
  }

  ghost predicate Alike(grace: int, mode: VolumeId -> AccessMode, s: Tables, t: Tables, now: Time) {
    AlikeEntries(mode, s, t) && AlikeGrace(grace, mode, s, t, now)
  }

  lemma SimilarPrimary(a: Record, b: Record)
    requires Similar(a, b) && |a.nodes| == 1
    ensures a.nodeId == b.nodeId
  {
    assert a.nodes[0].nodeId == a.nodeId && a.AttachedTo(a.nodeId);
    assert b.AttachedTo(a.nodeId);
  }

  lemma AlikeReplies(grace: int, mode: VolumeId -> AccessMode, s: Tables, t: Tables, c: TimedCall, now: Time)
    requires Alike(grace, mode, s, t, now) && now <= c.at && KeepsMode(mode, c.call)
    ensures Reply(grace, s, c) == Reply(grace, t, c)
    ensures c.call.CallPublish? ==>
              var p := ControllerSpec.Publish(grace, s, c.call.req, c.call.w, c.at);
              p.cleared == ControllerSpec.Publish(grace, t, c.call.req, c.call.w, c.at).cleared
  {
    match c.call
    case CallPublish(req, w) =>
      var v := req.volumeId;
      assert s.Valid() && t.Valid();
      if Accepted(req, w) {
        PublishDecides(grace, s, req, w, c.at);
        PublishDecides(grace, t, req, w, c.at);
        if v in s.attachments && req.capability.value == RWO {
          SimilarPrimary(s.attachments[v], t.attachments[v]);
        }
      }
    case CallUnpublish(v, n, validId) =>
  }

  /** One record on each side after the same call, when the pair stays alike. */
  lemma AlikePublishRecord(grace: int, s: Tables, t: Tables, req: PublishRequest, w: World, at: Time)
    requires s.Valid() && t.Valid() && (req.volumeId in s.attachments <==> req.volumeId in t.attachments)
    requires req.volumeId in s.attachments ==> Similar(s.attachments[req.volumeId], t.attachments[req.volumeId])
    requires var p, q := ControllerSpec.Publish(grace, s, req, w, at), ControllerSpec.Publish(grace, t, req, w, at);
             p.code == q.code && p.cleared == q.cleared
    ensures var v := req.volumeId;
            var s' := ControllerSpec.Publish(grace, s, req, w, at).tables;
            var t' := ControllerSpec.Publish(grace, t, req, w, at).tables;
            && (v in s'.attachments <==> v in t'.attachments)
            && (v in s'.attachments ==> Similar(s'.attachments[v], t'.attachments[v]))
  {
    var v := req.volumeId;
    var p, q := ControllerSpec.Publish(grace, s, req, w, at), ControllerSpec.Publish(grace, t, req, w, at);
    PublishFrame(grace, s, req, w, at);
    PublishFrame(grace, t, req, w, at);
    if p.code == OK {
      PublishOk(grace, s, req, w, at);
      PublishOk(grace, t, req, w, at);
      assert p.tables.On(v, req.nodeId) && q.tables.On(v, req.nodeId);
      forall n ensures p.tables.On(v, n) <==> q.tables.On(v, n) {
        assert s.On(v, n) <==> t.On(v, n);
      }
      assert forall n :: p.tables.On(v, n) <==> p.tables.attachments[v].AttachedTo(n);
      assert forall n :: q.tables.On(v, n) <==> q.tables.attachments[v].AttachedTo(n);
      SameNodesSameCount(p.tables.attachments[v], q.tables.attachments[v]);
    } else {
      PublishRefused(grace, s, req, w, at);
      PublishRefused(grace, t, req, w, at);
    }
  }

  lemma SameNodesSameCount(a: Record, b: Record)
    requires a.Valid() && b.Valid() && forall n :: a.AttachedTo(n) <==> b.AttachedTo(n)
    ensures |a.nodes| == |b.nodes|
  {
    assert a.AttachedTo(a.nodes[0].nodeId) && b.AttachedTo(b.nodes[0].nodeId);
    assert |a.nodes| == 2 ==> a.AttachedTo(a.nodes[1].nodeId);
    assert |b.nodes| == 2 ==> b.AttachedTo(b.nodes[1].nodeId);
  }

  /** Timestamps move together: both set now, both cleared, or both left. */
  ghost predicate SameMove(s: Tables, s': Tables, t: Tables, t': Tables, v: VolumeId, at: Time) {
    || (s'.detached == s.detached && t'.detached == t.detached)
    || (s'.detached == s.detached[v := at] && t'.detached == t.detached[v := at])
    || (s'.detached == s.detached - {v} && t'.detached == t.detached - {v})
  }

  lemma GraceFrom(grace: int, mode: VolumeId -> AccessMode, s: Tables, s': Tables, t: Tables, t': Tables,
                  v: VolumeId, now: Time, at: Time)
    requires AlikeGrace(grace, mode, s, t, now) && now <= at && SameMove(s, s', t, t', v, at)
    ensures AlikeGrace(grace, mode, s', t', at)
  {}

  lemma SameElsewhere(a: map<VolumeId, Record>, b: map<VolumeId, Record>, v: VolumeId)
    requires a - {v} == b - {v}
    ensures forall x :: x != v ==> (x in a <==> x in b) && (x in a ==> a[x] == b[x])
  {
    forall x | x != v ensures (x in a <==> x in b) && (x in a ==> a[x] == b[x]) {
      assert x in a - {v} <==> x in b - {v};
      if x in a {
        assert (a - {v})[x] == (b - {v})[x];
      }
    }
  }

  /** The volume's own entries and the frame, put together. */
  lemma EntriesFrom(mode: VolumeId -> AccessMode, s: Tables, s': Tables, t: Tables, t': Tables, v: VolumeId)
    requires AlikeEntries(mode, s, t) && Exclusive(mode, s')
    requires s'.attachments - {v} == s.attachments - {v} && t'.attachments - {v} == t.attachments - {v}
    requires v in s'.attachments <==> v in t'.attachments
    requires v in s'.attachments ==> Similar(s'.attachments[v], t'.attachments[v])
    ensures AlikeEntries(mode, s', t')
  {
    SameElsewhere(s'.attachments, s.attachments, v);
    SameElsewhere(t'.attachments, t.attachments, v);
    assert forall x :: x in s'.attachments <==> x in t'.attachments;
  }

  lemma AlikePublish(grace: int, mode: VolumeId -> AccessMode, s: Tables, t: Tables, c: TimedCall, now: Time)
    requires Alike(grace, mode, s, t, now) && now <= c.at && KeepsMode(mode, c.call) && c.call.CallPublish?
    ensures Alike(grace, mode, After(grace, s, c), After(grace, t, c), c.at)
  {
    var req, w := c.call.req, c.call.w;
    AlikeReplies(grace, mode, s, t, c, now);
    AlikePublishRecord(grace, s, t, req, w, c.at);
    PublishFrame(grace, s, req, w, c.at);
    PublishFrame(grace, t, req, w, c.at);
    PublishTimestamps(grace, s, req, w, c.at);
    PublishTimestamps(grace, t, req, w, c.at);
    PublishExclusive(grace, s, req, w, c.at, mode);
    EntriesFrom(mode, s, After(grace, s, c), t, After(grace, t, c), req.volumeId);
    GraceFrom(grace, mode, s, After(grace, s, c), t, After(grace, t, c), req.volumeId, now, c.at);
  }

  /** Removing a node on both sides of a similar pair. */
  lemma AlikeRemove(s: Tables, t: Tables, v: VolumeId, n: NodeId, at: Time)
    requires v in s.attachments <==> v in t.attachments
    requires v in s.attachments ==> Similar(s.attachments[v], t.attachments[v])
    ensures var s', t' := RemoveNode(s, v, n, at).0, RemoveNode(t, v, n, at).0;
            && (v in s'.attachments <==> v in t'.attachments)
            && (v in s'.attachments ==> Similar(s'.attachments[v], t'.attachments[v]))
            && SameMove(s, s', t, t', v, at)
            && s'.attachments - {v} == s.attachments - {v}
            && t'.attachments - {v} == t.attachments - {v}
  {
    if v in s.attachments && s.attachments[v].AttachedTo(n) {
      DroppedEffect(s.attachments[v], n);
      DroppedEffect(t.attachments[v], n);
    }
  }

  lemma AlikeUnpublish(grace: int, mode: VolumeId -> AccessMode, s: Tables, t: Tables, c: TimedCall, now: Time)
    requires Alike(grace, mode, s, t, now) && now <= c.at && c.call.CallUnpublish?
    ensures Alike(grace, mode, After(grace, s, c), After(grace, t, c), c.at)
  {
    var v, n := c.call.vol, c.call.node;
    StepExclusive(Config(grace, grace), System(s, [], 0), DoUnpublish(v, n, c.call.validId), c.at, mode);
    AlikeRemove(s, t, v, n, c.at);
    EntriesFrom(mode, s, After(grace, s, c), t, After(grace, t, c), v);
    GraceFrom(grace, mode, s, After(grace, s, c), t, After(grace, t, c), v, now, c.at);
  }

  /** Two controllers that are alike give the same replies for ever. */
  lemma {:induction false} AlikeForever(grace: int, mode: VolumeId -> AccessMode, s: Tables, t: Tables,
                                        calls: seq<TimedCall>, now: Time)
    requires Alike(grace, mode, s, t, now) && WellTimed(calls, now)
    requires forall i :: 0 <= i < |calls| ==> KeepsMode(mode, calls[i].call)
    ensures Replies(grace, s, calls) == Replies(grace, t, calls)
    ensures AlikeEntries(mode, AfterAll(grace, s, calls), AfterAll(grace, t, calls))
    decreases |calls|
  {
    if calls != [] {
      var c := calls[0];
      AlikeReplies(grace, mode, s, t, c, now);
      if c.call.CallPublish? {
        AlikePublish(grace, mode, s, t, c, now);
      } else {
        AlikeUnpublish(grace, mode, s, t, c, now);
      }
      AlikeForever(grace, mode, After(grace, s, c), After(grace, t, c), calls[1..], c.at);
    }
  }

  ghost predicate Admissible(mode: VolumeId -> AccessMode, calls: seq<TimedCall>, from: Time) {
    WellTimed(calls, from) && forall i :: 0 <= i < |calls| ==> KeepsMode(mode, calls[i].call)
  }

  /**
   * Restart simulation. When the VolumeAttachments mirror the tables, each volume keeps one access mode and no
   * grace period is open, a manager rebuilt from nothing gives every later Publish and Unpublish the reply that
   * the running one would have given, and leaves the volumes on the same nodes.
   */
  lemma RestartUnnoticed(grace: int, mode: VolumeId -> AccessMode, s: Tables, vas: seq<VolumeAttachment>, pvs: PvModes,
                         calls: seq<TimedCall>, now: Time)
    requires s.Valid() && Mirrors(vas, s) && Exclusive(mode, s)
    requires forall v :: UsesGrace(grace, mode, v) ==> !s.WithinGrace(v, grace, now)
    requires Admissible(mode, calls, now)
    ensures var t := RebuildSpec.Rebuild(EmptyTables, vas, pvs);
            && Replies(grace, s, calls) == Replies(grace, t, calls)
            && forall v, n :: AfterAll(grace, s, calls).On(v, n) <==> AfterAll(grace, t, calls).On(v, n)
  {
    RebuildRecovers(s, EmptyTables, vas, pvs);
    var t := RebuildSpec.Rebuild(EmptyTables, vas, pvs);
    assert forall v :: v in s.detached && UsesGrace(grace, mode, v) ==> !s.WithinGrace(v, grace, now);
    AlikeForever(grace, mode, s, t, calls, now);
  }

  /** A world in which every lookup and write succeeds. */
  const Calm := World(true, true, true, (n: NodeId) => Exists, true)

  function Ask(v: VolumeId, n: NodeId, now: Time): TimedCall {
    TimedCall(now, CallPublish(PublishRequest(v, n, Some(RWO), 1), Calm))
  }

  /** With an open grace period a second node is let in before the restart and refused after it. */
  lemma GraceDecides(grace: int, s: Tables, t: Tables, v: VolumeId, n: NodeId, now: Time)
    requires s.Valid() && t.Valid() && v != "" && n != "" && grace > 0
    requires v in s.attachments && v in t.attachments && !s.On(v, n) && !t.On(v, n)
    requires s.WithinGrace(v, grace, now) && v !in t.detached
    ensures Reply(grace, s, Ask(v, n, now)) == OK && Reply(grace, t, Ask(v, n, now)) == FailedPrecondition
  {
    PublishDecides(grace, s, PublishRequest(v, n, Some(RWO), 1), Calm, now);
    PublishDecides(grace, t, PublishRequest(v, n, Some(RWO), 1), Calm, now);
  }

  lemma TwoReplies(grace: int, s: Tables, a: TimedCall, b: TimedCall)
    ensures Replies(grace, s, [a, b]) == [Reply(grace, s, a), Reply(grace, After(grace, s, a), b)]
  {
    assert [a, b][1..] == [b] && [b][1..] == [];
    assert Replies(grace, After(grace, s, a), [b]) == [Reply(grace, After(grace, s, a), b)];
  }

  /** A free volume: the first node joins as usual, and keeps the old timestamp alive. */
  lemma FirstJoins(grace: int, s: Tables, v: VolumeId, now: Time)
    requires s.Valid() && v != "" && v !in s.attachments
    ensures var s1 := After(grace, s, Ask(v, "a", now));
            s1.Valid() && s1.detached == s.detached && v in s1.attachments && !s1.On(v, "b")
  {
    TrackEffect(s, v, "a", RWO, true, now);
  }

  lemma NoticedWhenTracked(grace: int, s: Tables, t: Tables, v: VolumeId, now: Time) returns (call: TimedCall)
    requires s.Valid() && t.Valid() && v != "" && grace > 0 && s.WithinGrace(v, grace, now) && v !in t.detached
    requires v in s.attachments && v in t.attachments && |s.attachments[v].nodes| == 1
    requires Similar(s.attachments[v], t.attachments[v])
    ensures call.at == now && call.call.CallPublish?
    ensures call.call.req.volumeId == v && call.call.req.capability == Some(RWO)
    ensures Reply(grace, s, call) != Reply(grace, t, call)
  {
    var r := s.attachments[v];
    var other := r.nodeId + "x";
    assert |other| == |r.nodeId| + 1;
    call := Ask(v, other, now);
    GraceDecides(grace, s, t, v, other, now);
  }

  lemma NoticedWhenFree(grace: int, s: Tables, t: Tables, v: VolumeId, now: Time)
    requires s.Valid() && t.Valid() && v != "" && grace > 0 && s.WithinGrace(v, grace, now) && v !in t.detached
    requires v !in s.attachments && v !in t.attachments
    ensures var calls := [Ask(v, "a", now), Ask(v, "b", now)]; Replies(grace, s, calls) != Replies(grace, t, calls)
  {
    var a, b := Ask(v, "a", now), Ask(v, "b", now);
    FirstJoins(grace, s, v, now);
    FirstJoins(grace, t, v, now);
    GraceDecides(grace, After(grace, s, a), After(grace, t, a), v, "b", now);
    TwoReplies(grace, s, a, b);
    TwoReplies(grace, t, a, b);
  }

  lemma GraceNoticed(grace: int, mode: VolumeId -> AccessMode, s: Tables, t: Tables, v: VolumeId, now: Time)
    returns (calls: seq<TimedCall>)
    requires s.Valid() && t.Valid() && AlikeEntries(mode, s, t) && t.detached == map[]
    requires UsesGrace(grace, mode, v) && s.WithinGrace(v, grace, now)
    ensures Admissible(mode, calls, now)
    ensures Replies(grace, s, calls) != Replies(grace, t, calls)
  {
    if v in s.attachments {
      var call := NoticedWhenTracked(grace, s, t, v, now);
      calls := [call];
      assert Replies(grace, s, calls)[0] != Replies(grace, t, calls)[0];
    } else {
      NoticedWhenFree(grace, s, t, v, now);
      calls := [Ask(v, "a", now), Ask(v, "b", now)];
      assert calls[1..] == [Ask(v, "b", now)];
    }
  }

  /** Exactly when a restart goes unnoticed: no RWO volume has an open grace period at that moment. */
  lemma RestartUnnoticedIff(grace: int, mode: VolumeId -> AccessMode, s: Tables, vas: seq<VolumeAttachment>,
                            pvs: PvModes, now: Time)
    requires s.Valid() && Mirrors(vas, s) && Exclusive(mode, s)
    ensures (forall calls :: Admissible(mode, calls, now) ==>
               Replies(grace, s, calls) == Replies(grace, RebuildSpec.Rebuild(EmptyTables, vas, pvs), calls))
            <==> (forall v :: UsesGrace(grace, mode, v) ==> !s.WithinGrace(v, grace, now))
  {
    if v :| UsesGrace(grace, mode, v) && s.WithinGrace(v, grace, now) {
      RebuildRecovers(s, EmptyTables, vas, pvs);
      var calls := GraceNoticed(grace, mode, s, RebuildSpec.Rebuild(EmptyTables, vas, pvs), v, now);
    } else {
      forall calls | Admissible(mode, calls, now)
        ensures Replies(grace, s, calls) == Replies(grace, RebuildSpec.Rebuild(EmptyTables, vas, pvs), calls)
      {
        RestartUnnoticed(grace, mode, s, vas, pvs, calls, now);
      }
    }
  }

  /** A volume that left its only node a moment ago: some calls after a restart get other replies. */
  lemma RecentDetachNoticed(mode: VolumeId -> AccessMode, pvs: PvModes)
    requires mode("v") == RWO
    ensures var run := [Timed(0, DoPublish(PublishRequest("v", "a", Some(RWO), 1), Calm)),
                        Timed(0, DoUnpublish("v", "a", true))];
            var s := Run(Config(10, 10), Start, run).tables;
            && Mirrors([], s) && Exclusive(mode, s)
            && exists calls :: Admissible(mode, calls, 1)
                 && Replies(10, s, calls) != Replies(10, RebuildSpec.Rebuild(EmptyTables, [], pvs), calls)
  {
    var c, req := Config(10, 10), PublishRequest("v", "a", Some(RWO), 1);
    var run := [Timed(0, DoPublish(req, Calm)), Timed(0, DoUnpublish("v", "a", true))];
    assert run[..1][..0] == [];
    assert Run(c, Start, run[..1]) == Exec(c, Start, run[0].step, 0);
    PublishThenUnpublish(10, EmptyTables, req, Calm, 0, 0);
    var s := Run(c, Start, run).tables;
    assert s.attachments == map[] && s.detached == map["v" := 0];
    assert UsesGrace(10, mode, "v") && s.WithinGrace("v", 10, 1);
    RestartUnnoticedIff(10, mode, s, [], pvs, 1);
  }
}
