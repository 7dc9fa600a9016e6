/** Two accounts that every run keeps: handovers against detaches, and the migration gauge. */
module RunAccounts {
  import opened AttachmentTypes
  import opened ManagerSpec
  import opened ControllerSpec
  import opened ReconcileSpec
  import opened RebuildSpec
  import opened Runs

  // ---- each grace-period handover has a detach of its own ----

  ghost predicate IsDetachOf(log: seq<Event>, k: nat, v: VolumeId) {
    k < |log| && log[k].Detached? && v in log[k].vols
  }

  ghost predicate IsHandoverOf(log: seq<Event>, i: nat, v: VolumeId) {
    i < |log| && log[i].HandedOver? && log[i].vol == v
  }

  /** Event `i` is a handover and event `k` an earlier detach of the same volume, within the grace period. */
  ghost predicate Matches(grace: int, log: seq<Event>, i: nat, k: nat) {
    && k < i < |log| && log[i].HandedOver? && IsDetachOf(log, k, log[i].vol)
    && 0 <= log[i].at - log[k].at < grace
  }

  /** `pair` gives every handover in the log a matching detach, and no two handovers of a volume the same one. */
  ghost predicate Paired(grace: int, log: seq<Event>, pair: map<nat, nat>) {
    && (forall i: nat, v :: IsHandoverOf(log, i, v) ==> i in pair)
    && (forall i: nat :: i in pair ==> Matches(grace, log, i, pair[i]))
    && (forall i: nat, j: nat, v :: i < j && IsHandoverOf(log, i, v) && IsHandoverOf(log, j, v) ==> pair[i] != pair[j])
  }

  /** A recorded timestamp comes from a detach that no handover has used. */
  ghost predicate Spare(log: seq<Event>, pair: map<nat, nat>, v: VolumeId, at: Time, k: nat) {
    && IsDetachOf(log, k, v) && log[k].at == at
    && forall i: nat :: IsHandoverOf(log, i, v) && i in pair ==> pair[i] != k
  }

  ghost predicate Backed(y: System, pair: map<nat, nat>) {
    forall v :: v in y.tables.detached ==> exists k :: Spare(y.log, pair, v, y.tables.detached[v], k)
  }

  ghost predicate NotAfter(y: System, now: Time) {
    && (forall i :: 0 <= i < |y.log| ==> y.log[i].at <= now)
    && (forall v :: v in y.tables.detached ==> y.tables.detached[v] <= now)
  }

  lemma PairedWithDetach(grace: int, log: seq<Event>, e: Event, pair: map<nat, nat>)
    requires Paired(grace, log, pair) && e.Detached?
    ensures Paired(grace, log + [e], pair)
  {
    var more := log + [e];
    forall i: nat, v | IsHandoverOf(more, i, v) ensures IsHandoverOf(log, i, v) {}
    forall i: nat | i in pair ensures Matches(grace, more, i, pair[i]) {
      assert Matches(grace, log, i, pair[i]);
    }
  }

  lemma PairedWithHandover(grace: int, log: seq<Event>, v: VolumeId, now: Time, pair: map<nat, nat>, k: nat)
    requires Paired(grace, log, pair) && k < |log| && Spare(log, pair, v, log[k].at, k) && 0 <= now - log[k].at < grace
    ensures Paired(grace, log + [HandedOver(v, now)], pair[|log| := k])
  {
    var more, pair' := log + [HandedOver(v, now)], pair[|log| := k];
    forall i: nat, x | IsHandoverOf(more, i, x) ensures i == |log| || IsHandoverOf(log, i, x) {}
    forall i: nat | i in pair' ensures Matches(grace, more, i, pair'[i]) {
      if i != |log| {
        assert Matches(grace, log, i, pair[i]);
      }
    }
    forall i: nat, j: nat, x | i < j && IsHandoverOf(more, i, x) && IsHandoverOf(more, j, x)
      ensures pair'[i] != pair'[j]
    {
      assert IsHandoverOf(log, i, x) && i in pair;
    }
  }

  lemma SpareLater(log: seq<Event>, e: Event, pair: map<nat, nat>, v: VolumeId, at: Time, k: nat)
    requires Spare(log, pair, v, at, k) && forall i: nat :: i in pair ==> i < |log|
    ensures Spare(log + [e], pair, v, at, k)
  {
    forall i: nat | IsHandoverOf(log + [e], i, v) && i in pair ensures pair[i] != k {
      assert IsHandoverOf(log, i, v);
    }
  }

  /** Appending a detach of `vols` backs fresh timestamps for them and keeps every other backing. */
  lemma AfterDetach(grace: int, y: System, z: System, pair: map<nat, nat>, vols: set<VolumeId>, now: Time)
    requires Paired(grace, y.log, pair) && Backed(y, pair)
    requires z.log == y.log + [Detached(vols, now)]
    requires forall v :: v in z.tables.detached ==>
               || (v in vols && z.tables.detached[v] == now)
               || (v in y.tables.detached && z.tables.detached[v] == y.tables.detached[v])
    ensures Paired(grace, z.log, pair) && Backed(z, pair)
  {
    PairedWithDetach(grace, y.log, Detached(vols, now), pair);
    assert forall i: nat :: i in pair ==> Matches(grace, y.log, i, pair[i]);
    forall v | v in z.tables.detached ensures exists k :: Spare(z.log, pair, v, z.tables.detached[v], k) {
      if v in vols && z.tables.detached[v] == now {
        assert Spare(z.log, pair, v, now, |y.log|);
      } else {
        var k :| Spare(y.log, pair, v, y.tables.detached[v], k);
        SpareLater(y.log, Detached(vols, now), pair, v, y.tables.detached[v], k);
      }
    }
  }

  /** Appending a handover of `v` spends the detach behind its timestamp. */
  lemma AfterHandover(grace: int, y: System, z: System, pair: map<nat, nat>, v: VolumeId, now: Time)
    returns (more: map<nat, nat>)
    requires Paired(grace, y.log, pair) && Backed(y, pair) && NotAfter(y, now)
    requires v in y.tables.detached && now - y.tables.detached[v] < grace
    requires z.log == y.log + [HandedOver(v, now)]
    requires z.tables.detached == y.tables.detached - {v}
    ensures Paired(grace, z.log, more) && Backed(z, more)
  {
    var k :| Spare(y.log, pair, v, y.tables.detached[v], k);
    more := pair[|y.log| := k];
    PairedWithHandover(grace, y.log, v, now, pair, k);
    forall x | x in z.tables.detached ensures exists h :: Spare(z.log, more, x, z.tables.detached[x], h) {
      var h :| Spare(y.log, pair, x, y.tables.detached[x], h);
      forall i: nat | IsHandoverOf(z.log, i, x) && i in more ensures more[i] != h {
        assert IsHandoverOf(y.log, i, x);
      }
      assert Spare(z.log, more, x, z.tables.detached[x], h);
    }
  }

  lemma SameBacking(y: System, z: System, pair: map<nat, nat>)
    requires Backed(y, pair) && z.log == y.log && z.tables.detached == y.tables.detached
    ensures Backed(z, pair)
  {}

  lemma PublishPaired(c: Config, y: System, req: PublishRequest, w: World, now: Time, pair: map<nat, nat>)
    returns (more: map<nat, nat>)
    requires Paired(c.grace, y.log, pair) && Backed(y, pair) && NotAfter(y, now)
    ensures var z := Exec(c, y, DoPublish(req, w), now);
            Paired(c.grace, z.log, more) && Backed(z, more) && NotAfter(z, now)
  {
    var z := Exec(c, y, DoPublish(req, w), now);
    more := pair;
    PublishTimestamps(c.grace, y.tables, req, w, now);
    match ControllerSpec.Publish(c.grace, y.tables, req, w, now).cleared {
      case Kept =>
        assert z.log == y.log;
        SameBacking(y, z, pair);
      case SelfHeal => AfterDetach(c.grace, y, z, pair, {req.volumeId}, now);
      case Handover => more := AfterHandover(c.grace, y, z, pair, req.volumeId, now);
    }
  }

  lemma StepPaired(c: Config, y: System, st: Step, now: Time, pair: map<nat, nat>) returns (more: map<nat, nat>)
    requires y.tables.Valid() && Paired(c.grace, y.log, pair) && Backed(y, pair) && NotAfter(y, now)
    ensures var z := Exec(c, y, st, now); Paired(c.grace, z.log, more) && Backed(z, more) && NotAfter(z, now)
  {
    var z := Exec(c, y, st, now);
    more := pair;
    match st
    case DoPublish(req, w) => more := PublishPaired(c, y, req, w, now, pair);
    case DoUnpublish(v, n, validId) =>
      UnpublishRemoves(y.tables, v, n, validId, now);
      if ControllerSpec.Unpublish(y.tables, v, n, validId, now).last {
        AfterDetach(c.grace, y, z, pair, {v}, now);
      } else {
        assert z.log == y.log;
        SameBacking(y, z, pair);
      }
    case DoReconcile(answers) => AfterDetach(c.grace, y, z, pair, Cleared(c, y.tables, answers, now), now);
    case DoRebuild(vas, pvs) => SameBacking(y, z, pair);
  }

  lemma {:induction false} RunPaired(c: Config, run: seq<Timed>) returns (pair: map<nat, nat>)
    requires Monotone(run)
    requires forall i :: 0 <= i < |run| ==> SoundRebuild(run[i].step)
    ensures var y := Run(c, Start, run);
            && Paired(c.grace, y.log, pair) && Backed(y, pair)
            && (run != [] ==> NotAfter(y, run[|run| - 1].at))
            && (run == [] ==> forall now :: NotAfter(y, now))
  {
    if run == [] {
      pair := map[];
    } else {
      var init, last := run[..|run| - 1], run[|run| - 1];
      var before := RunPaired(c, init);
      RunValid(c, Start, init);
      var y := Run(c, Start, init);
      assert NotAfter(y, last.at) by {
        if init != [] {
          assert run[|run| - 2].at <= run[|run| - 1].at;
        }
      }
      pair := StepPaired(c, y, last.step, last.at, before);
    }
  }

  /**
   * Every handover of a run started from the empty state can be paired with its own recent detach, and a detach
   * behind a timestamp that is still there is nobody's.
   */
  lemma HandoversPaired(c: Config, run: seq<Timed>)
    requires Monotone(run)
    requires forall i :: 0 <= i < |run| ==> SoundRebuild(run[i].step)
    ensures exists pair :: Paired(c.grace, Run(c, Start, run).log, pair) && Backed(Run(c, Start, run), pair)
  {
    var pair := RunPaired(c, run);
  }

  ghost function Handovers(log: seq<Event>, v: VolumeId): set<nat> {
    set i: nat | i < |log| && IsHandoverOf(log, i, v)
  }

  ghost function Detaches(log: seq<Event>, v: VolumeId): set<nat> {
    set k: nat | k < |log| && IsDetachOf(log, k, v)
  }

  lemma {:induction false} Injection(a: set<nat>, b: set<nat>, pair: map<nat, nat>)
    requires forall i :: i in a ==> i in pair && pair[i] in b
    requires forall i, j :: i in a && j in a && i != j ==> pair[i] != pair[j]
    ensures |a| <= |b|
    decreases |a|
  {
    if a != {} {
      var i :| i in a;
      Injection(a - {i}, b - {pair[i]}, pair);
    }
  }

  /** Per volume, the handovers plus one if a timestamp is there are never more than the detaches. */
  lemma HandoversBounded(c: Config, run: seq<Timed>, v: VolumeId)
    requires Monotone(run)
    requires forall i :: 0 <= i < |run| ==> SoundRebuild(run[i].step)
    ensures var y := Run(c, Start, run);
            |Handovers(y.log, v)| + (if v in y.tables.detached then 1 else 0) <= |Detaches(y.log, v)|
  {
    var y := Run(c, Start, run);
    var pair := RunPaired(c, run);
    var detaches := Detaches(y.log, v);
    forall i | i in Handovers(y.log, v) ensures i in pair && pair[i] in detaches {
      assert IsHandoverOf(y.log, i, v) && Matches(c.grace, y.log, i, pair[i]);
    }
    if v in y.tables.detached {
      var k :| Spare(y.log, pair, v, y.tables.detached[v], k);
      assert k in detaches;
      Injection(Handovers(y.log, v), detaches - {k}, pair);
    } else {
      Injection(Handovers(y.log, v), detaches, pair);
    }
  }

  // ---- the active-migrations gauge ----

  /** How far the gauge is from the number of volumes migrating now. */
  ghost function Drift(y: System): int {
    y.tables.gauge - |MigratingVolumes(y.tables)| - y.dropped
  }

  lemma PublishGauge(grace: int, s: Tables, req: PublishRequest, w: World, now: Time)
    requires s.Valid()
    ensures var v := req.volumeId;
            var p := ControllerSpec.Publish(grace, s, req, w, now);
            var t := p.tables;
            && (p.cleared != Kept ==> t.gauge == s.gauge && MigratingVolumes(t) == MigratingVolumes(s) - {v})
            && (p.cleared == Kept ==>
                  || (t.gauge == s.gauge && MigratingVolumes(t) == MigratingVolumes(s))
                  || (&& t.gauge == s.gauge + 1 && v !in MigratingVolumes(s)
                      && MigratingVolumes(t) == MigratingVolumes(s) + {v}))
  {
    var v, n := req.volumeId, req.nodeId;
    var p := ControllerSpec.Publish(grace, s, req, w, now);
    if v in s.attachments {
      assert s.attachments[v].Valid();
    }
    if p.cleared != Kept {
      assert MigratingVolumes(p.tables) == MigratingVolumes(s) - {v};
    } else if p.tables.gauge == s.gauge {
      assert MigratingVolumes(p.tables) == MigratingVolumes(s);
    } else {
      assert MigratingVolumes(p.tables) == MigratingVolumes(s) + {v};
    }
  }

  lemma PublishDrift(c: Config, y: System, req: PublishRequest, w: World, now: Time)
    requires y.tables.Valid()
    ensures Drift(Exec(c, y, DoPublish(req, w), now)) == Drift(y)
  {
    PublishGauge(c.grace, y.tables, req, w, now);
    Split(MigratingVolumes(y.tables), {req.volumeId});
  }

  lemma RemoveGauge(s: Tables, v: VolumeId, n: NodeId, now: Time)
    requires s.Valid()
    ensures var t := RemoveNode(s, v, n, now).0;
            || (t.gauge == s.gauge && MigratingVolumes(t) == MigratingVolumes(s))
            || (t.gauge == s.gauge - 1 && v in MigratingVolumes(s) && MigratingVolumes(t) == MigratingVolumes(s) - {v})
  {
    if s.On(v, n) {
      assert s.attachments[v].Valid();
      DroppedEffect(s.attachments[v], n);
      var t := RemoveNode(s, v, n, now).0;
      if |s.attachments[v].nodes| == 2 {
        assert MigratingVolumes(t) == MigratingVolumes(s) - {v};
      } else {
        assert MigratingVolumes(t) == MigratingVolumes(s);
      }
    }
  }

  lemma UnpublishDrift(c: Config, y: System, v: VolumeId, n: NodeId, validId: bool, now: Time)
    requires y.tables.Valid()
    ensures Drift(Exec(c, y, DoUnpublish(v, n, validId), now)) == Drift(y)
  {
    RemoveGauge(y.tables, v, n, now);
  }

  lemma ReconcileDrift(c: Config, y: System, answers: map<VolumeId, NodeAnswer>, now: Time)
    ensures Drift(Exec(c, y, DoReconcile(answers), now)) == Drift(y)
  {
    var s, gone := y.tables, Cleared(c, y.tables, answers, now);
    assert MigratingVolumes(Clear(s, gone, now)) == MigratingVolumes(s) - gone;
    Split(MigratingVolumes(s), gone);
  }

  lemma StepGauge(c: Config, y: System, st: Step, now: Time)
    requires y.tables.Valid() && !st.DoRebuild?
    ensures Drift(Exec(c, y, st, now)) == Drift(y)
  {
    match st
    case DoPublish(req, w) => PublishDrift(c, y, req, w, now);
    case DoUnpublish(v, n, validId) => UnpublishDrift(c, y, v, n, validId, now);
    case DoReconcile(answers) => ReconcileDrift(c, y, answers, now);
  }

  lemma Split(a: set<VolumeId>, b: set<VolumeId>)
    ensures |a| == |a - b| + |a * b|
  {
    assert a == (a - b) + a * b;
  }

  /**
   * Conservation: over any run of Publish, Unpublish and reconcile the gauge moves with the number of migrating
   * volumes plus the number of times a migrating volume was untracked.
   */
  lemma {:induction false} RunGauge(c: Config, y: System, run: seq<Timed>)
    requires y.tables.Valid()
    requires forall i :: 0 <= i < |run| ==> !run[i].step.DoRebuild?
    ensures Drift(Run(c, y, run)) == Drift(y)
  {
    if run != [] {
      var init := run[..|run| - 1];
      RunGauge(c, y, init);
      RunValid(c, y, init);
      StepGauge(c, Run(c, y, init), run[|run| - 1].step, run[|run| - 1].at);
    }
  }

  /** From the empty state the gauge is exactly the migrating volumes plus the dropped migrations. */
  lemma GaugeFromStart(c: Config, run: seq<Timed>)
    requires forall i :: 0 <= i < |run| ==> !run[i].step.DoRebuild?
    ensures var y := Run(c, Start, run); y.tables.gauge == |MigratingVolumes(y.tables)| + y.dropped
  {
    RunGauge(c, Start, run);
    assert MigratingVolumes(EmptyTables) == {};
  }

  /** After a restart the gauge stays below that by the migrations recovered, which nothing counted as started. */
  lemma GaugeAfterRestart(c: Config, vas: seq<VolumeAttachment>, pvs: PvModes, run: seq<Timed>)
    requires SoundRebuild(DoRebuild(vas, pvs))
    requires forall i :: 0 <= i < |run| ==> !run[i].step.DoRebuild?
    ensures var y0 := System(RebuildSpec.Rebuild(EmptyTables, vas, pvs), [], 0);
            var y := Run(c, y0, run);
            y.tables.gauge == |MigratingVolumes(y.tables)| + y.dropped - |MigratingVolumes(y0.tables)|
  {
    RebuildValid(EmptyTables, vas, pvs);
    RunGauge(c, System(RebuildSpec.Rebuild(EmptyTables, vas, pvs), [], 0), run);
  }

  lemma TwoObjects(a: VolumeAttachment, b: VolumeAttachment, v: VolumeId)
    requires a.Counts() && b.Counts() && a.pvName.value == v && b.pvName.value == v
    ensures OfVolume([a, b], v) == [a, b]
  {
    assert [a, b][..1] == [a] && [a][..0] == [];
    assert OfVolume([a], v) == [a];
  }

  lemma OneNodeNotMigrating(t: Tables, v: VolumeId, n: NodeId)
    requires t.Valid() && t.attachments.Keys <= {v} && forall m :: t.On(v, m) ==> m == n
    ensures MigratingVolumes(t) == {}
  {
    if v in t.attachments && |t.attachments[v].nodes| == 2 {
      assert t.On(v, t.attachments[v].nodes[0].nodeId) && t.On(v, t.attachments[v].nodes[1].nodeId);
    }
  }

  /** The objects of a migration of "v" from "a" to "b". */
  const MigrationObjects := [VolumeAttachment(DRIVER_NAME, Some("v"), "a", 0, true),
                             VolumeAttachment(DRIVER_NAME, Some("v"), "b", 1, true)]

  lemma MigrationRecovered(pvs: PvModes)
    ensures var s := RebuildSpec.Rebuild(EmptyTables, MigrationObjects, pvs);
            && s.Valid() && s.attachments.Keys == {"v"} && s.gauge == 0 && MigratingVolumes(s) == {"v"}
            && (forall n :: s.On("v", n) <==> n == "a" || n == "b")
    ensures SoundRebuild(DoRebuild(MigrationObjects, pvs))
  {
    var vas := MigrationObjects;
    var s := RebuildSpec.Rebuild(EmptyTables, vas, pvs);
    TwoObjects(vas[0], vas[1], "v");
    assert vas[0].Counts() && "v" in Named(vas) && forall x :: x in Named(vas) ==> x == "v";
    var nodes := s.attachments["v"].nodes;
    assert nodes[0].nodeId == "a" && nodes[1].nodeId == "b" && |nodes| == 2;
    RebuildValid(EmptyTables, vas, pvs);
  }

  /** A migration found after a restart is not counted, and its end takes the gauge below zero. */
  lemma RecoveredMigrationUncounted(c: Config, pvs: PvModes)
    ensures var y := System(RebuildSpec.Rebuild(EmptyTables, MigrationObjects, pvs), [], 0);
            && MigratingVolumes(y.tables) == {"v"} && y.tables.gauge == 0
            && Run(c, y, [Timed(2, DoUnpublish("v", "a", true))]).tables.gauge == -1
  {
    var s := RebuildSpec.Rebuild(EmptyTables, MigrationObjects, pvs);
    var run := [Timed(2, DoUnpublish("v", "a", true))];
    MigrationRecovered(pvs);
    UnpublishRemoves(s, "v", "a", true, 2);
    assert run[..0] == [];
    assert Run(c, System(s, [], 0), run) == Exec(c, System(s, [], 0), run[0].step, 2);
    var t := Unpublish(s, "v", "a", true, 2).tables;
    RemovedKeys(s, "v", "a", 2);
    OneNodeNotMigrating(t, "v", "b");
    GaugeAfterRestart(c, MigrationObjects, pvs, run);
  }

  lemma RemovedKeys(s: Tables, v: VolumeId, n: NodeId, now: Time)
    ensures RemoveNode(s, v, n, now).0.attachments.Keys <= s.attachments.Keys
  {}

  /** Only volume `v` is tracked, on the two nodes of a migration, and no timestamp is there. */
  ghost predicate OnlyMigrating(s: Tables, v: VolumeId, a: NodeId, b: NodeId) {
    && s.attachments.Keys == {v} && s.detached == map[] && s.attachments[v].Migrating() && s.attachments[v].nodeId == a
    && s.On(v, a) && s.On(v, b)
  }

  lemma FirstPublished(req: PublishRequest, w: World, now: Time)
    requires Accepted(req, w) && w.persisted
    ensures Publish(1, EmptyTables, req, w, now).tables
         == Tables(map[req.volumeId := NewRecord(req.nodeId, req.capability.value, now)], map[], 0)
  {}

  lemma SecondPublished(s: Tables, a: NodeId, req: PublishRequest, w: World, at: Time, now: Time)
    requires Accepted(req, w) && req.capability == Some(RWX) && req.nodeId != a
    requires s == Tables(map[req.volumeId := NewRecord(a, RWX, at)], map[], 0)
    ensures var t := Publish(1, s, req, w, now).tables; OnlyMigrating(t, req.volumeId, a, req.nodeId) && t.gauge == 1
  {
    var r := s.attachments[req.volumeId];
    var r' := AddSecondary(s, req.volumeId, req.nodeId, req.timeout, now).0.attachments[req.volumeId];
    assert !r.AttachedTo(req.nodeId) && !r.TimedOut(now);
    assert r'.nodes[0].nodeId == a && r'.nodes[1].nodeId == req.nodeId;
  }

  lemma PassDropsMigrating(s: Tables, v: VolumeId, a: NodeId, b: NodeId, lister: NodeId -> NodeAnswer, now: Time)
    requires OnlyMigrating(s, v, a, b) && lister(a) == Gone
    ensures MigratingVolumes(s) == {v}
    ensures StaleAmong(s, s.attachments.Keys, lister, 1, now) == {v}
    ensures Cleared(Config(1, 1), s, map[v := lister(a)], now) == {v}
    ensures Pass(s, lister, 1, now) == Tables(map[], map[v := now], s.gauge)
  {
    assert StaleAmong(s, s.attachments.Keys, lister, 1, now) == {v};
    assert Clear(s, {v}, now) == Tables(map[], map[v := now], s.gauge);
  }

  /** Volume "v" is published to "a" and then to "b". */
  function MigrationStart(w: World): seq<Timed> {
    [Timed(0, DoPublish(PublishRequest("v", "a", Some(RWX), 9), w)),
     Timed(1, DoPublish(PublishRequest("v", "b", Some(RWX), 9), w))]
  }

  lemma MigrationStarted(w: World)
    requires w.validId && w.nodeKnown && w.volumeKnown && w.persisted
    ensures var s := Run(Config(1, 1), Start, MigrationStart(w)).tables;
            && OnlyMigrating(s, "v", "a", "b") && s.gauge == 1 && s.Valid()
            && forall n :: s.On("v", n) <==> n == "a" || n == "b"
  {
    var c, start := Config(1, 1), MigrationStart(w);
    assert start[..1][..0] == [];
    assert Run(c, Start, start[..1]) == Exec(c, Start, start[0].step, 0);
    var s1, s := Run(c, Start, start[..1]).tables, Run(c, Start, start).tables;
    FirstPublished(start[0].step.req, w, 0);
    SecondPublished(s1, "a", start[1].step.req, w, 0, 1);
    RunValid(c, Start, start);
    OnlyTheTwo(s, "v", "a", "b");
  }

  lemma OnlyTheTwo(s: Tables, v: VolumeId, a: NodeId, b: NodeId)
    requires s.Valid() && s.On(v, a) && s.On(v, b) && a != b
    ensures forall n :: s.On(v, n) <==> n == a || n == b
  {}

  /**
   * A run in which both happen: a volume migrates from "a" to "b", "a" is deleted, and the pass takes the volume from
   * "b", which is there. Nothing migrates any more and the gauge stays at one.
   */
  lemma ReconcileDropsLiveNode(w: World, lister: NodeId -> NodeAnswer)
    requires w.validId && w.nodeKnown && w.volumeKnown && w.persisted && lister("a") == Gone && lister("b") == Exists
    ensures var c, pass := Config(1, 1), Timed(2, DoReconcile(map["v" := lister("a")]));
            var before := Run(c, Start, MigrationStart(w)).tables;
            var after := Run(c, Start, MigrationStart(w) + [pass]).tables;
            && before.On("v", "a") && before.On("v", "b") && before.gauge == 1 && MigratingVolumes(before) == {"v"}
            && after == Pass(before, lister, 1, 2)
            && !after.On("v", "b") && after.gauge == 1 && MigratingVolumes(after) == {}
  {
    var c, start := Config(1, 1), MigrationStart(w);
    var pass := Timed(2, DoReconcile(map["v" := lister("a")]));
    var y := Run(c, Start, start);
    MigrationStarted(w);
    PassDropsMigrating(y.tables, "v", "a", "b", lister, 2);
    assert (start + [pass])[..2] == start;
    assert Run(c, Start, start + [pass]) == Exec(c, y, pass.step, 2);
  }
}
