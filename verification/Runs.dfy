/** Whole runs of the attachment protocol: what holds after any sequence of calls, passes and rebuilds. */
module Runs {
  import opened AttachmentTypes
  import opened ManagerSpec
  import opened ControllerSpec
  import opened ReconcileSpec
  import opened RebuildSpec

  datatype Config = Config(grace: int, reconcileGrace: int)

  /** A reconcile step gives, for each volume the pass visited, what the lister said of its primary node. */
  datatype Step =
    | DoPublish(req: PublishRequest, w: World)
    | DoUnpublish(vol: VolumeId, node: NodeId, validId: bool)
    | DoReconcile(answers: map<VolumeId, NodeAnswer>)
    | DoRebuild(vas: seq<VolumeAttachment>, pvs: PvModes)

  datatype Timed = Timed(at: Time, step: Step)

  datatype Event = Detached(vols: set<VolumeId>, at: Time) | HandedOver(vol: VolumeId, at: Time)

  /** The tables, the history of detaches and grace-period handovers, and how often a migrating volume was untracked. */
  datatype System = System(tables: Tables, log: seq<Event>, dropped: nat)

  const Start := System(EmptyTables, [], 0)

  ghost function MigratingVolumes(s: Tables): set<VolumeId> {
    set v | v in s.attachments && s.attachments[v].Migrating()
  }

  ghost function Cleared(c: Config, s: Tables, answers: map<VolumeId, NodeAnswer>, now: Time): set<VolumeId> {
    set v | v in answers && Stale(s, v, answers[v], c.reconcileGrace, now)
  }

  ghost function Exec(c: Config, y: System, st: Step, now: Time): System {
    match st
    case DoPublish(req, w) =>
      var p := ControllerSpec.Publish(c.grace, y.tables, req, w, now);
      var events :=
        match p.cleared
        case Kept => []
        case Handover => [HandedOver(req.volumeId, now)]
        case SelfHeal => [Detached({req.volumeId}, now)];
      var lost := if p.cleared != Kept then |MigratingVolumes(y.tables) * {req.volumeId}| else 0;
      System(p.tables, y.log + events, y.dropped + lost)
    case DoUnpublish(v, n, validId) =>
      var u := ControllerSpec.Unpublish(y.tables, v, n, validId, now);
      System(u.tables, y.log + (if u.last then [Detached({v}, now)] else []), y.dropped)
    case DoReconcile(answers) =>
      var gone := Cleared(c, y.tables, answers, now);
      System(Clear(y.tables, gone, now), y.log + [Detached(gone, now)], y.dropped + |MigratingVolumes(y.tables) * gone|)
    case DoRebuild(vas, pvs) =>
      System(RebuildSpec.Rebuild(y.tables, vas, pvs), y.log, y.dropped)
  }

  ghost function Run(c: Config, y: System, run: seq<Timed>): System {
    if run == [] then y
    else
      var last := run[|run| - 1];
      Exec(c, Run(c, y, run[..|run| - 1]), last.step, last.at)
  }

  ghost predicate Monotone(run: seq<Timed>) {
    forall i, j :: 0 <= i < j < |run| ==> run[i].at <= run[j].at
  }

  // ---- every tracked volume has one or two distinct nodes ----

  /** Every rebuild reads VolumeAttachments whose first two objects per volume name different nodes. */
  ghost predicate SoundRebuild(st: Step) {
    st.DoRebuild? ==>
      forall v :: v in Named(st.vas) && |OfVolume(st.vas, v)| >= 2 ==>
        OfVolume(st.vas, v)[0].nodeName != OfVolume(st.vas, v)[1].nodeName
  }

  lemma StepValid(c: Config, y: System, st: Step, now: Time)
    requires y.tables.Valid()
    ensures Exec(c, y, st, now).tables.Valid() <==> SoundRebuild(st)
  {
    match st
    case DoPublish(req, w) => PublishFrame(c.grace, y.tables, req, w, now);
    case DoUnpublish(v, n, validId) => UnpublishRemoves(y.tables, v, n, validId, now);
    case DoReconcile(answers) => ClearKeepsValid(y.tables, Cleared(c, y.tables, answers, now), now);
    case DoRebuild(vas, pvs) => RebuildValid(y.tables, vas, pvs);
  }

  lemma {:induction false} RunValid(c: Config, y: System, run: seq<Timed>)
    requires y.tables.Valid()
    requires forall i :: 0 <= i < |run| ==> SoundRebuild(run[i].step)
    ensures Run(c, y, run).tables.Valid()
  {
    if run != [] {
      RunValid(c, y, run[..|run| - 1]);
      StepValid(c, Run(c, y, run[..|run| - 1]), run[|run| - 1].step, run[|run| - 1].at);
    }
  }

  // ---- RWO volumes stay on one node ----

  /** Every request and every recovered volume keeps to the volume's one access mode. */
  ghost predicate OneMode(mode: VolumeId -> AccessMode, st: Step) {
    match st
    case DoPublish(req, _) => req.capability.Some? ==> req.capability.value == mode(req.volumeId)
    case DoRebuild(vas, pvs) =>
      forall v :: v in Named(vas) ==> LookupMode(pvs, v) == mode(v) && (mode(v) == RWO ==> |OfVolume(vas, v)| == 1)
    case _ => true
  }

  ghost predicate Exclusive(mode: VolumeId -> AccessMode, s: Tables) {
    forall v :: v in s.attachments ==>
      s.attachments[v].accessMode == mode(v) && (mode(v) == RWO ==> |s.attachments[v].nodes| == 1)
  }

  /** After a Publish the volume's own entry is the old one, a new one with the requested mode, or a second RWX node. */
  lemma PublishOwnEntry(grace: int, s: Tables, req: PublishRequest, w: World, now: Time)
    ensures var v := req.volumeId;
            var t := ControllerSpec.Publish(grace, s, req, w, now).tables;
            v in t.attachments ==>
              var r := t.attachments[v];
              || (v in s.attachments && r == s.attachments[v])
              || (req.capability == Some(r.accessMode) && |r.nodes| == 1)
              || (v in s.attachments && r.accessMode == s.attachments[v].accessMode && req.capability == Some(RWX))
  {}

  lemma PublishExclusive(grace: int, s: Tables, req: PublishRequest, w: World, now: Time, mode: VolumeId -> AccessMode)
    requires Exclusive(mode, s) && (req.capability.Some? ==> req.capability.value == mode(req.volumeId))
    ensures Exclusive(mode, ControllerSpec.Publish(grace, s, req, w, now).tables)
  {
    var v := req.volumeId;
    var t := ControllerSpec.Publish(grace, s, req, w, now).tables;
    PublishFrame(grace, s, req, w, now);
    PublishOwnEntry(grace, s, req, w, now);
    forall x | x in t.attachments && x != v ensures x in s.attachments && t.attachments[x] == s.attachments[x] {
      assert x in t.attachments - {v} && x in s.attachments - {v};
    }
  }

  lemma StepExclusive(c: Config, y: System, st: Step, now: Time, mode: VolumeId -> AccessMode)
    requires y.tables.Valid() && OneMode(mode, st) && Exclusive(mode, y.tables)
    ensures Exclusive(mode, Exec(c, y, st, now).tables)
  {
    match st
    case DoPublish(req, w) => PublishExclusive(c.grace, y.tables, req, w, now, mode);
    case DoUnpublish(v, n, validId) =>
      if y.tables.On(v, n) {
        DroppedEffect(y.tables.attachments[v], n);
      }
    case DoReconcile(answers) =>
    case DoRebuild(vas, pvs) =>
  }

  lemma {:induction false} RunExclusive(c: Config, y: System, run: seq<Timed>, mode: VolumeId -> AccessMode)
    requires y.tables.Valid() && Exclusive(mode, y.tables)
    requires forall i :: 0 <= i < |run| ==> SoundRebuild(run[i].step) && OneMode(mode, run[i].step)
    ensures Exclusive(mode, Run(c, y, run).tables)
    ensures forall v, n, m ::
              var t := Run(c, y, run).tables;
              mode(v) == RWO && t.On(v, n) && t.On(v, m) ==> n == m
  {
    if run != [] {
      var init := run[..|run| - 1];
      RunExclusive(c, y, init, mode);
      RunValid(c, y, init);
      StepExclusive(c, Run(c, y, init), run[|run| - 1].step, run[|run| - 1].at, mode);
    }
  }

  /**
   * Nothing checks the recorded mode. A Publish gives a second node to a volume tracked as RWO exactly when an
   * RWX request comes for another node while one node is attached.
   */
  lemma ExclusivityBreaks(c: Config, s: Tables, req: PublishRequest, w: World, now: Time)
    requires s.Valid() && req.volumeId in s.attachments
    requires s.attachments[req.volumeId].accessMode == RWO && |s.attachments[req.volumeId].nodes| == 1
    ensures var t := ControllerSpec.Publish(c.grace, s, req, w, now).tables;
            (req.volumeId in t.attachments && t.attachments[req.volumeId].accessMode == RWO
             && |t.attachments[req.volumeId].nodes| == 2) <==>
              Accepted(req, w) && req.capability == Some(RWX) && !s.On(req.volumeId, req.nodeId)
  {
    assert s.attachments[req.volumeId].Valid();
  }

  lemma MixedModesShareAVolume(w: World)
    requires w.validId && w.nodeKnown && w.volumeKnown && w.persisted
    ensures var first := DoPublish(PublishRequest("v", "a", Some(RWO), 1), w);
            var second := DoPublish(PublishRequest("v", "b", Some(RWX), 1), w);
            var t := Run(Config(1, 1), Start, [Timed(0, first), Timed(1, second)]).tables;
            t.On("v", "a") && t.On("v", "b") && t.attachments["v"].accessMode == RWO
  {
    var r1 := PublishRequest("v", "a", Some(RWO), 1);
    var r2 := PublishRequest("v", "b", Some(RWX), 1);
    var c := Config(1, 1);
    var run := [Timed(0, DoPublish(r1, w)), Timed(1, DoPublish(r2, w))];
    assert run[..1] == [run[0]] && run[..1][..0] == [];
    assert Run(c, Start, run[..1][..0]) == Start;
    var s1 := Run(c, Start, run[..1]);
    assert s1 == Exec(c, Start, DoPublish(r1, w), 0);
    PublishOk(1, EmptyTables, r1, w, 0);
    assert s1.tables.On("v", "a") && !s1.tables.On("v", "b");
    assert s1.tables.attachments["v"] == NewRecord("a", RWO, 0);
    PublishOk(1, s1.tables, r2, w, 1);
  }
}
