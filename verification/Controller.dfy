/** ControllerPublishVolume and ControllerUnpublishVolume as functions of the manager's tables. */
module ControllerSpec {
  import opened AttachmentTypes
  import opened ManagerSpec

  datatype Code = OK | InvalidArgument | NotFound | FailedPrecondition | Internal

  /** `capability` is absent when the request carries none; `timeout` is the parsed migration timeout. */
  datatype PublishRequest = PublishRequest(
    volumeId: VolumeId, nodeId: NodeId, capability: Option<AccessMode>, timeout: int)

  /** What the outside answers during one Publish: id check, Kubernetes, RDS, and the annotation write. */
  datatype World = World(
    validId: bool, nodeKnown: bool, volumeKnown: bool, lookup: NodeId -> NodeAnswer, persisted: bool)

  /** How the previous attachment was cleared before the new one was tracked, if it was. */
  datatype Clearing = Kept | Handover | SelfHeal

  datatype Published = Published(tables: Tables, code: Code, cleared: Clearing)

  predicate Accepted(req: PublishRequest, w: World) {
    && req.volumeId != "" && req.nodeId != "" && w.validId && req.capability.Some?
    && w.nodeKnown && w.volumeKnown
  }

  function Publish(grace: int, s: Tables, req: PublishRequest, w: World, now: Time): Published {
    var v, n := req.volumeId, req.nodeId;
    if v == "" || n == "" || !w.validId || req.capability.None? then
      Published(s, InvalidArgument, Kept)
    else if !w.nodeKnown || !w.volumeKnown then
      Published(s, NotFound, Kept)
    else if v !in s.attachments then
      TrackNew(s, req, w, now, Kept)
    else if s.attachments[v].AttachedTo(n) then
      Published(s, OK, Kept)
    else if req.capability.value == RWX then
      PublishSecond(s, req, now)
    else if grace > 0 && s.WithinGrace(v, grace, now) then
      TrackNew(ClearDetach(Untrack(s, v, now), v), req, w, now, Handover)
    else
      match w.lookup(s.attachments[v].nodeId)
      case ApiError => Published(s, Internal, Kept)
      case Gone => TrackNew(Untrack(s, v, now), req, w, now, SelfHeal)
      case Exists => Published(s, FailedPrecondition, Kept)
  }

  /** The RWX branch: a second node joins, unless two are there or the migration has timed out. */
  function PublishSecond(s: Tables, req: PublishRequest, now: Time): Published
    requires req.volumeId in s.attachments
  {
    var r := s.attachments[req.volumeId];
    if |r.nodes| >= 2 then
      Published(s, FailedPrecondition, Kept)
    else if r.TimedOut(now) then
      Published(s.(gauge := s.gauge - 1), FailedPrecondition, Kept)
    else if |r.nodes| == 0 then
      Published(s, Internal, Kept)
    else
      var (t, ok) := AddSecondary(s, req.volumeId, req.nodeId, req.timeout, now);
      Published(t, if ok then OK else Internal, Kept)
  }

  function TrackNew(s: Tables, req: PublishRequest, w: World, now: Time, cleared: Clearing): Published
    requires req.capability.Some?
  {
    var (t, ok) := Track(s, req.volumeId, req.nodeId, req.capability.value, w.persisted, now);
    var code :=
      if ok then OK
      else if req.volumeId in t.attachments && !t.On(req.volumeId, req.nodeId) then FailedPrecondition
      else Internal;
    Published(t, code, cleared)
  }

  /** The reply of a controller that tracks nothing. */
  function Untracked(req: PublishRequest, w: World): Code {
    if req.volumeId == "" || req.nodeId == "" || !w.validId || req.capability.None? then InvalidArgument
    else if !w.nodeKnown || !w.volumeKnown then NotFound
    else OK
  }

  datatype Unpublished = Unpublished(tables: Tables, code: Code, last: bool)

  function Unpublish(s: Tables, v: VolumeId, n: NodeId, validId: bool, now: Time): Unpublished {
    if v == "" || !validId then Unpublished(s, InvalidArgument, false)
    else
      var (t, last) := RemoveNode(s, v, n, now);
      Unpublished(t, OK, last)
  }

  // ---- what a reply means ----

  /** OK means attached: the new relation is the old one, less what was cleared, plus the requested pair. */
  lemma PublishOk(grace: int, s: Tables, req: PublishRequest, w: World, now: Time)
    requires Publish(grace, s, req, w, now).code == OK
    ensures var p := Publish(grace, s, req, w, now);
            forall x, m :: p.tables.On(x, m) <==>
              || (x == req.volumeId && m == req.nodeId)
              || (s.On(x, m) && (x != req.volumeId || p.cleared == Kept))
  {
    var v, n := req.volumeId, req.nodeId;
    if v in s.attachments && !s.On(v, n) {
      AddSecondaryEffect(s, v, n, req.timeout, now);
      UntrackEffect(s, v, now);
      TrackEffect(Untrack(s, v, now), v, n, req.capability.value, w.persisted, now);
      TrackEffect(ClearDetach(Untrack(s, v, now), v), v, n, req.capability.value, w.persisted, now);
    } else if v !in s.attachments {
      TrackEffect(s, v, n, req.capability.value, w.persisted, now);
    }
  }

  /**
   * Any other reply leaves the requested pair absent unless it was there. A FailedPrecondition leaves every
   * attachment and timestamp alone; an error that clears an attachment does so only before a failed persist.
   */
  lemma PublishRefused(grace: int, s: Tables, req: PublishRequest, w: World, now: Time)
    requires Publish(grace, s, req, w, now).code != OK
    ensures var p := Publish(grace, s, req, w, now);
            && p.tables.attachments == (if p.cleared == Kept then s.attachments else s.attachments - {req.volumeId})
            && (p.code != Internal ==> p.cleared == Kept && p.tables.detached == s.detached)
            && (p.cleared != Kept ==> !w.persisted)
            && (s.Valid() && p.cleared == Kept ==> p.tables == s)
  {
    var v, n := req.volumeId, req.nodeId;
    if v in s.attachments && !s.On(v, n) {
      UntrackEffect(s, v, now);
      AddSecondaryEffect(s, v, n, req.timeout, now);
    }
  }

  /**
   * The reply, from the relation alone. On valid tables the timeout branch, the empty-node-list branch and the
   * late-conflict branch of Publish decide nothing.
   */
  lemma PublishDecides(grace: int, s: Tables, req: PublishRequest, w: World, now: Time)
    requires s.Valid() && Accepted(req, w)
    ensures var v := req.volumeId;
            var p := Publish(grace, s, req, w, now);
            var free := v !in s.attachments;
            var conflict := !free && !s.On(v, req.nodeId);
            var second := conflict && req.capability.value == RWX;
            var handover := conflict && !second && grace > 0 && s.WithinGrace(v, grace, now);
            var blocked := conflict && !second && !handover;
            var blocker := if blocked then w.lookup(s.attachments[v].nodeId) else Exists;
            && (p.cleared == Handover <==> handover)
            && (p.cleared == SelfHeal <==> blocked && blocker == Gone)
            && (p.code == OK <==>
                  || s.On(v, req.nodeId)
                  || (second && |s.attachments[v].nodes| == 1)
                  || (w.persisted && (free || handover || (blocked && blocker == Gone))))
            && (p.code == FailedPrecondition <==>
                  || (second && |s.attachments[v].nodes| == 2)
                  || (blocked && blocker == Exists))
            && (p.code == Internal <==>
                  || (!w.persisted && (free || handover || (blocked && blocker == Gone)))
                  || (blocked && blocker == ApiError))
  {
    var v, n := req.volumeId, req.nodeId;
    if v in s.attachments && !s.On(v, n) {
      assert s.attachments[v].Valid();
      UntrackEffect(s, v, now);
      AddSecondaryEffect(s, v, n, req.timeout, now);
    }
  }

  /** Only the entry and the timestamp of `v` differ, and valid tables stay valid. */
  ghost predicate Framed(s: Tables, t: Tables, v: VolumeId) {
    && t.attachments - {v} == s.attachments - {v}
    && t.detached - {v} == s.detached - {v}
    && (s.Valid() ==> t.Valid())
  }

  lemma TrackFramed(s: Tables, req: PublishRequest, w: World, now: Time, cleared: Clearing)
    requires req.capability.Some?
    ensures Framed(s, TrackNew(s, req, w, now, cleared).tables, req.volumeId)
  {}

  lemma UntrackFramed(s: Tables, v: VolumeId, now: Time)
    ensures Framed(s, Untrack(s, v, now), v) && Framed(s, ClearDetach(Untrack(s, v, now), v), v)
  {}

  lemma SecondFramed(s: Tables, req: PublishRequest, now: Time)
    requires req.volumeId in s.attachments
    ensures Framed(s, PublishSecond(s, req, now).tables, req.volumeId)
  {
    AddSecondaryEffect(s, req.volumeId, req.nodeId, req.timeout, now);
  }

  /** What a Publish may touch: the entry and timestamp of its own volume, and valid tables stay valid. */
  lemma PublishFrame(grace: int, s: Tables, req: PublishRequest, w: World, now: Time)
    ensures Framed(s, Publish(grace, s, req, w, now).tables, req.volumeId)
  {
    var v := req.volumeId;
    if v in s.attachments {
      UntrackFramed(s, v, now);
      SecondFramed(s, req, now);
    }
    if req.capability.Some? {
      TrackFramed(s, req, w, now, Kept);
      TrackFramed(Untrack(s, v, now), req, w, now, SelfHeal);
      TrackFramed(ClearDetach(Untrack(s, v, now), v), req, w, now, Handover);
    }
  }

  /** How a Publish changes the timestamps, by how it cleared the old attachment. */
  lemma PublishTimestamps(grace: int, s: Tables, req: PublishRequest, w: World, now: Time)
    ensures var v := req.volumeId;
            var p := Publish(grace, s, req, w, now);
            && (p.cleared == Kept ==> p.tables.detached == s.detached)
            && (p.cleared == SelfHeal ==> v in s.attachments && p.tables.detached == s.detached[v := now])
            && (p.cleared == Handover ==>
                  && v in s.attachments && p.tables.detached == s.detached - {v}
                  && grace > 0 && s.WithinGrace(v, grace, now))
  {
    var v := req.volumeId;
    if v in s.attachments {
      assert s.detached[v := now] - {v} == s.detached - {v};
    }
  }

  /** Unpublish removes exactly the requested pair, and stamps the volume exactly when its last node goes. */
  lemma UnpublishRemoves(s: Tables, v: VolumeId, n: NodeId, validId: bool, now: Time)
    requires s.Valid()
    ensures var u := Unpublish(s, v, n, validId, now);
            && u.tables.Valid()
            && (u.code == OK ==> forall x, m :: u.tables.On(x, m) <==> s.On(x, m) && !(x == v && m == n))
            && (u.code != OK ==> u.tables == s)
            && (u.last <==> v in s.attachments && v !in u.tables.attachments)
            && u.tables.detached == (if u.last then s.detached[v := now] else s.detached)
  {
    RemoveNodeEffect(s, v, n, now);
  }

  /** Publishing a free volume and then unpublishing it restores every attachment. */
  lemma PublishThenUnpublish(grace: int, s: Tables, req: PublishRequest, w: World, t0: Time, t1: Time)
    requires s.Valid() && Accepted(req, w) && req.volumeId !in s.attachments && w.persisted
    ensures var p := Publish(grace, s, req, w, t0);
            var u := Unpublish(p.tables, req.volumeId, req.nodeId, w.validId, t1);
            && p.code == OK && u.code == OK && u.last
            && u.tables.attachments == s.attachments
            && u.tables.detached == s.detached[req.volumeId := t1]
  {
    var r := NewRecord(req.nodeId, req.capability.value, t0);
    assert r.AttachedTo(req.nodeId);
    WithoutOneOfTwo(r.nodes, req.nodeId);
  }

  /**
   * A Publish takes a volume from another node exactly when it is RWO and either a timestamp is within grace, even if
   * that node attached after it, or the primary node is gone, even if that node is not the primary one.
   */
  lemma HandoverDisplaces(grace: int, s: Tables, req: PublishRequest, w: World, now: Time, m: NodeId)
    requires s.Valid() && s.On(req.volumeId, m) && m != req.nodeId
    ensures var p := Publish(grace, s, req, w, now);
            !p.tables.On(req.volumeId, m) <==>
              && Accepted(req, w)
              && !s.On(req.volumeId, req.nodeId)
              && req.capability.value == RWO
              && (|| (grace > 0 && s.WithinGrace(req.volumeId, grace, now))
                  || w.lookup(s.attachments[req.volumeId].nodeId) == Gone)
  {
    var v, n := req.volumeId, req.nodeId;
    var p := Publish(grace, s, req, w, now);
    if Accepted(req, w) {
      PublishDecides(grace, s, req, w, now);
      if p.code == OK {
        PublishOk(grace, s, req, w, now);
      } else {
        PublishRefused(grace, s, req, w, now);
      }
    }
  }

  /** Only node `n` has volume `v`. */
  ghost predicate OnlyOn(s: Tables, v: VolumeId, n: NodeId) {
    forall m :: s.On(v, m) <==> m == n
  }

  lemma LastNodeStamps(s: Tables, v: VolumeId, n: NodeId, now: Time)
    requires s.Valid() && v != "" && OnlyOn(s, v, n)
    ensures var t := Unpublish(s, v, n, true, now).tables;
            t.Valid() && v !in t.attachments && v in t.detached && t.detached[v] == now
  {
    UnpublishRemoves(s, v, n, true, now);
    var t := Unpublish(s, v, n, true, now).tables;
    assert s.On(v, n);
    if v in t.attachments {
      assert t.attachments[v].AttachedTo(t.attachments[v].nodes[0].nodeId);
      assert t.On(v, t.attachments[v].nodes[0].nodeId);
    }
  }

  /**
   * An ordinary attach leaves the timestamp of the last detach in place. So a volume that left its only node and was
   * attached to a second node is handed over to a third within the grace period, and the second loses it.
   */
  lemma HandoverEvictsLaterNode(grace: int, s: Tables, first: NodeId, second: PublishRequest, third: PublishRequest,
                                w: World, t0: Time, t1: Time, t2: Time)
    requires s.Valid() && OnlyOn(s, second.volumeId, first)
    requires Accepted(second, w) && Accepted(third, w) && w.persisted
    requires third.volumeId == second.volumeId && third.nodeId != second.nodeId && third.capability.value == RWO
    requires t0 <= t1 <= t2 < t0 + grace
    ensures var s0 := Unpublish(s, second.volumeId, first, true, t0).tables;
            var p1 := Publish(grace, s0, second, w, t1);
            var p2 := Publish(grace, p1.tables, third, w, t2);
            && p1.code == OK && p1.tables.On(second.volumeId, second.nodeId)
            && p2.code == OK && !p2.tables.On(second.volumeId, second.nodeId)
  {
    var s0 := Unpublish(s, second.volumeId, first, true, t0).tables;
    var p1 := Publish(grace, s0, second, w, t1);
    LastNodeStamps(s, second.volumeId, first, t0);
    PublishDecides(grace, s0, second, w, t1);
    PublishOk(grace, s0, second, w, t1);
    PublishTimestamps(grace, s0, second, w, t1);
    PublishFrame(grace, s0, second, w, t1);
    assert !p1.tables.On(third.volumeId, third.nodeId);
    PublishDecides(grace, p1.tables, third, w, t2);
    HandoverDisplaces(grace, p1.tables, third, w, t2, second.nodeId);
  }
}

/** The two RPCs as the source runs them: step by step on the shared manager. */
module ControllerServers {
  import opened AttachmentTypes
  import opened ControllerSpec
  import opened Attachments

  class ControllerServer {
    const am: AttachmentManager? // null when attachments are not tracked
    const gracePeriod: int

    constructor (am: AttachmentManager?, gracePeriod: int)
      ensures this.am == am && this.gracePeriod == gracePeriod
    {
      this.am, this.gracePeriod := am, gracePeriod;
    }

    method ControllerPublishVolume(req: PublishRequest, w: World, now: Time)
      returns (code: Code, ghost cleared: Clearing)
      requires am != null ==> am.Valid()
      modifies am, if am == null then {} else am.attachments.Values
      ensures am == null ==> code == Untracked(req, w)
      ensures am != null ==> am.Valid()
      ensures am != null ==>
                Published(am.Contents(), code, cleared) == Publish(gracePeriod, old(am.Contents()), req, w, now)
    {
      cleared := Kept;
      var v, n := req.volumeId, req.nodeId;
      if v == "" || n == "" || !w.validId || req.capability.None? {
        return InvalidArgument, Kept;
      }
      if !w.nodeKnown || !w.volumeKnown {
        return NotFound, Kept;
      }
      if am == null {
        return OK, Kept;
      }
      if v in am.attachments {
        var existing := am.attachments[v];
        var attached := existing.IsAttachedToNode(n);
        if attached {
          return OK, Kept;
        }
        if req.capability.value == RWX {
          code := AttachSecond(existing, req, now);
          return;
        }
        var within := am.IsWithinGracePeriod(v, gracePeriod, now);
        if gracePeriod > 0 && within {
          am.UntrackAttachment(v, now);
          am.ClearDetachTimestamp(v);
          cleared := Handover;
        } else {
          match w.lookup(existing.nodeId) {
            case ApiError => return Internal, Kept;
            case Exists => return FailedPrecondition, Kept;
            case Gone =>
              am.UntrackAttachment(v, now);
              cleared := SelfHeal;
          }
        }
      }
      code := TrackPrimary(req, w, now, cleared);
    }

    method AttachSecond(existing: AttachmentState, req: PublishRequest, now: Time) returns (code: Code)
      requires am != null && am.Valid() && req.volumeId in am.attachments && existing == am.attachments[req.volumeId]
      modifies am, am.attachments.Values
      ensures am.Valid()
      ensures Published(am.Contents(), code, Kept) == PublishSecond(old(am.Contents()), req, now)
    {
      if |existing.nodes| >= 2 {
        return FailedPrecondition;
      }
      if existing.migrationStartedAt.Some? && existing.migrationTimeout != 0
         && now - existing.migrationStartedAt.value > existing.migrationTimeout {
        am.activeMigrations := am.activeMigrations - 1;
        return FailedPrecondition;
      }
      if |existing.nodes| == 0 {
        return Internal;
      }
      var ok := am.AddSecondaryAttachment(req.volumeId, req.nodeId, req.timeout, now);
      code := if ok then OK else Internal;
    }

    method TrackPrimary(req: PublishRequest, w: World, now: Time, ghost cleared: Clearing) returns (code: Code)
      requires am != null && am.Valid() && req.capability.Some?
      modifies am
      ensures am.Valid()
      ensures Published(am.Contents(), code, cleared) == TrackNew(old(am.Contents()), req, w, now, cleared)
    {
      var ok := am.TrackAttachmentWithMode(req.volumeId, req.nodeId, req.capability.value, w.persisted, now);
      if ok {
        return OK;
      }
      if req.volumeId in am.attachments {
        var attached := am.attachments[req.volumeId].IsAttachedToNode(req.nodeId);
        if !attached {
          return FailedPrecondition;
        }
      }
      code := Internal;
    }

    method ControllerUnpublishVolume(v: VolumeId, n: NodeId, validId: bool, now: Time) returns (code: Code, last: bool)
      requires am != null ==> am.Valid()
      modifies am, if am == null then {} else am.attachments.Values
      ensures am == null ==> code == (if v == "" || !validId then InvalidArgument else OK) && !last
      ensures am != null ==> am.Valid()
      ensures am != null ==> Unpublished(am.Contents(), code, last) == Unpublish(old(am.Contents()), v, n, validId, now)
    {
      if v == "" || !validId {
        return InvalidArgument, false;
      }
      if am == null {
        return OK, false;
      }
      last := am.RemoveNodeAttachment(v, n, now);
      code := OK;
    }
  }
}
