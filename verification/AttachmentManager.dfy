/** The four operations of the attachment manager as functions of its tables. */
module ManagerSpec {
  import opened AttachmentTypes

  function NewRecord(n: NodeId, mode: AccessMode, now: Time): (r: Record)
    ensures r.Valid() && (forall m :: r.AttachedTo(m) <==> m == n)
  {
    var r := Record(n, [NodeAttachment(n, now)], now, mode, None, 0);
    assert r.nodes[0].nodeId == n;
    r
  }

  /** A failed persist leaves the tables as they were: the entry written before it is rolled back. */
  function Track(s: Tables, v: VolumeId, n: NodeId, mode: AccessMode, persisted: bool, now: Time): (Tables, bool) {
    if v in s.attachments then
      (s, s.attachments[v].AttachedTo(n))
    else if persisted then
      (s.(attachments := s.attachments[v := NewRecord(n, mode, now)]), true)
    else
      (s, false)
  }

  function AddSecondary(s: Tables, v: VolumeId, n: NodeId, timeout: int, now: Time): (Tables, bool) {
    if v !in s.attachments then
      (s, false)
    else
      var r := s.attachments[v];
      if r.AttachedTo(n) then
        (s, true)
      else if |r.nodes| >= 2 then
        (s, false)
      else
        var r' := r.(nodes := r.nodes + [NodeAttachment(n, now)],
                     migrationStartedAt := Some(now),
                     migrationTimeout := timeout);
        (Tables(s.attachments[v := r'], s.detached, s.gauge + 1), true)
  }

  function Untrack(s: Tables, v: VolumeId, now: Time): Tables {
    if v !in s.attachments then s
    else Tables(s.attachments - {v}, s.detached[v := now], s.gauge)
  }

  function ClearDetach(s: Tables, v: VolumeId): Tables {
    s.(detached := s.detached - {v})
  }

  /** The nodes other than `n`, in their order. */
  function Without(nodes: seq<NodeAttachment>, n: NodeId): seq<NodeAttachment> {
    if nodes == [] then []
    else
      var rest, last := Without(nodes[..|nodes| - 1], n), nodes[|nodes| - 1];
      if last.nodeId == n then rest else rest + [last]
  }

  /** The entry left when `n` goes but another node stays: one remaining node ends the migration. */
  function Dropped(r: Record, n: NodeId): Record
    requires Without(r.nodes, n) != []
  {
    var rest := Without(r.nodes, n);
    var ended := |rest| == 1;
    r.(nodes := rest,
       nodeId := rest[0].nodeId,
       migrationStartedAt := if ended then None else r.migrationStartedAt,
       migrationTimeout := if ended then 0 else r.migrationTimeout)
  }

  /** The second component says whether the volume is now fully detached. */
  function RemoveNode(s: Tables, v: VolumeId, n: NodeId, now: Time): (Tables, bool) {
    if v !in s.attachments || !s.attachments[v].AttachedTo(n) then
      (s, false)
    else
      var r := s.attachments[v];
      var rest := Without(r.nodes, n);
      if rest == [] then
        (Tables(s.attachments - {v}, s.detached[v := now], s.gauge), true)
      else
        var completed := |rest| == 1 && r.migrationStartedAt.Some?;
        (Tables(s.attachments[v := Dropped(r, n)], s.detached, if completed then s.gauge - 1 else s.gauge), false)
  }

  // ---- what each operation does to the attached-to relation, and what it keeps ----

  lemma TrackEffect(s: Tables, v: VolumeId, n: NodeId, mode: AccessMode, persisted: bool, now: Time)
    ensures var (t, ok) := Track(s, v, n, mode, persisted, now);
            && (ok <==> s.On(v, n) || (v !in s.attachments && persisted))
            && (forall w, m :: t.On(w, m) <==> s.On(w, m) || (ok && w == v && m == n))
            && t.detached == s.detached && t.gauge == s.gauge
            && (s.Valid() ==> t.Valid())
  {
    var (t, ok) := Track(s, v, n, mode, persisted, now);
    forall w, m ensures t.On(w, m) <==> s.On(w, m) || (ok && w == v && m == n) {
      if w == v && v !in s.attachments && persisted {
        assert NewRecord(n, mode, now).AttachedTo(m) <==> m == n;
      }
    }
  }

  lemma AddSecondaryEffect(s: Tables, v: VolumeId, n: NodeId, timeout: int, now: Time)
    ensures var (t, ok) := AddSecondary(s, v, n, timeout, now);
            && (ok <==> s.On(v, n) || (v in s.attachments && |s.attachments[v].nodes| < 2))
            && (forall w, m :: t.On(w, m) <==> s.On(w, m) || (ok && w == v && m == n))
            && t.detached == s.detached
            && t.attachments.Keys == s.attachments.Keys
            && (s.Valid() ==> t.Valid())
            && (s.Valid() && v in s.attachments ==> t.attachments[v].nodeId == s.attachments[v].nodeId)
  {
    var (t, ok) := AddSecondary(s, v, n, timeout, now);
    if v in s.attachments && !s.On(v, n) && |s.attachments[v].nodes| < 2 {
      var r, r' := s.attachments[v], t.attachments[v];
      assert r'.nodes == r.nodes + [NodeAttachment(n, now)];
      assert r'.nodes[|r.nodes|].nodeId == n;
      forall m ensures r'.AttachedTo(m) <==> r.AttachedTo(m) || m == n {
        if r.AttachedTo(m) {
          var i :| 0 <= i < |r.nodes| && r.nodes[i].nodeId == m;
          assert r'.nodes[i].nodeId == m;
        }
      }
    }
  }

  lemma UntrackEffect(s: Tables, v: VolumeId, now: Time)
    ensures var t := Untrack(s, v, now);
            && (forall w, m :: t.On(w, m) <==> s.On(w, m) && w != v)
            && v !in t.attachments
            && t.detached == (if v in s.attachments then s.detached[v := now] else s.detached)
            && (s.Valid() ==> t.Valid())
  {}

  lemma RemoveNodeEffect(s: Tables, v: VolumeId, n: NodeId, now: Time)
    requires s.Valid()
    ensures var (t, last) := RemoveNode(s, v, n, now);
            && t.Valid()
            && (forall w, m :: t.On(w, m) <==> s.On(w, m) && !(w == v && m == n))
            && (last <==> v in s.attachments && v !in t.attachments)
            && t.detached == (if last then s.detached[v := now] else s.detached)
  {
    if s.On(v, n) {
      DroppedEffect(s.attachments[v], n);
    }
  }

  lemma DroppedEffect(r: Record, n: NodeId)
    requires r.Valid() && r.AttachedTo(n)
    ensures Without(r.nodes, n) == [] <==> |r.nodes| == 1
    ensures |r.nodes| == 1 ==> forall m :: r.AttachedTo(m) <==> m == n
    ensures |r.nodes| == 2 ==>
              && Dropped(r, n).Valid() && |Dropped(r, n).nodes| == 1
              && forall m :: Dropped(r, n).AttachedTo(m) <==> r.AttachedTo(m) && m != n
  {
    WithoutOneOfTwo(r.nodes, n);
    if |r.nodes| == 1 {
      assert r.nodes[0].nodeId == n;
    } else {
      var r' := Dropped(r, n);
      assert r'.nodes[0].nodeId == r'.nodeId;
      assert forall m :: r'.AttachedTo(m) <==> m == r'.nodeId;
      assert forall m :: r.AttachedTo(m) <==> m == r.nodes[0].nodeId || m == r.nodes[1].nodeId;
    }
  }

  /** Removing one of at most two distinct nodes leaves the other. */
  lemma WithoutOneOfTwo(nodes: seq<NodeAttachment>, n: NodeId)
    requires 1 <= |nodes| <= 2
    requires |nodes| == 2 ==> nodes[0].nodeId != nodes[1].nodeId
    requires exists i :: 0 <= i < |nodes| && nodes[i].nodeId == n
    ensures Without(nodes, n) == if |nodes| == 1 then [] else if nodes[0].nodeId == n then [nodes[1]] else [nodes[0]]
  {
    if |nodes| == 2 {
      assert nodes[..1] == [nodes[0]];
      assert [nodes[0]][..0] == [];
      assert Without([nodes[0]], n) == if nodes[0].nodeId == n then [] else [nodes[0]];
    } else {
      assert nodes[..0] == [];
    }
  }
}

/** The manager as the source keeps it: a map of objects that its methods update in place. */
module Attachments {
  import opened AttachmentTypes
  import Spec = ManagerSpec

  class AttachmentState {
    var nodeId: NodeId
    var nodes: seq<NodeAttachment>
    var attachedAt: Time
    var accessMode: AccessMode
    var migrationStartedAt: Option<Time>
    var migrationTimeout: int

    ghost function Value(): Record
      reads this
    {
      Record(nodeId, nodes, attachedAt, accessMode, migrationStartedAt, migrationTimeout)
    }

    constructor (r: Record)
      ensures Value() == r
    {
      nodeId, nodes, attachedAt := r.nodeId, r.nodes, r.attachedAt;
      accessMode, migrationStartedAt, migrationTimeout := r.accessMode, r.migrationStartedAt, r.migrationTimeout;
    }

    method IsAttachedToNode(n: NodeId) returns (attached: bool)
      ensures attached == Value().AttachedTo(n)
    {
      for i := 0 to |nodes|
        invariant forall j :: 0 <= j < i ==> nodes[j].nodeId != n
      {
        if nodes[i].nodeId == n {
          return true;
        }
      }
      return false;
    }

    method GetNodeIDs() returns (ids: seq<NodeId>)
      ensures |ids| == |nodes| && forall i :: 0 <= i < |ids| ==> ids[i] == nodes[i].nodeId
      ensures forall n :: n in ids <==> Value().AttachedTo(n)
    {
      ids := [];
      for i := 0 to |nodes|
        invariant |ids| == i && forall j :: 0 <= j < i ==> ids[j] == nodes[j].nodeId
      {
        ids := ids + [nodes[i].nodeId];
      }
    }
  }

  class AttachmentManager {
    var attachments: map<VolumeId, AttachmentState>
    var detachTimestamps: map<VolumeId, Time>
    var activeMigrations: int

    /** No two volumes share a state object. */
    ghost predicate Valid()
      reads this
    {
      forall v, w :: v in attachments && w in attachments && v != w ==> attachments[v] != attachments[w]
    }

    ghost function Contents(): Tables
      reads this, attachments.Values
    {
      Tables(map v | v in attachments :: attachments[v].Value(), detachTimestamps, activeMigrations)
    }

    /** Only the object of volume `v` changed. */
    twostate lemma OneEntryChanged(v: VolumeId)
      requires Valid() && attachments == old(attachments) && v in attachments
      requires forall w :: w in attachments && w != v ==> unchanged(attachments[w])
      ensures Contents().attachments == old(Contents()).attachments[v := attachments[v].Value()]
    {}

    /** Volume `v` got an entry and no other object changed. */
    twostate lemma OneEntryNew(v: VolumeId)
      requires v !in old(attachments) && v in attachments && attachments == old(attachments)[v := attachments[v]]
      requires forall w :: w in old(attachments) ==> unchanged(old(attachments)[w])
      ensures Contents().attachments == old(Contents()).attachments[v := attachments[v].Value()]
    {}

    /** The entry of volume `v` went and no object changed. */
    twostate lemma OneEntryGone(v: VolumeId)
      requires attachments == old(attachments) - {v}
      requires forall w :: w in attachments ==> unchanged(attachments[w])
      ensures Contents().attachments == old(Contents()).attachments - {v}
    {}

    constructor ()
      ensures Valid() && Contents() == EmptyTables
    {
      attachments, detachTimestamps, activeMigrations := map[], map[], 0;
    }

    method TrackAttachmentWithMode(v: VolumeId, n: NodeId, mode: AccessMode, persisted: bool, now: Time)
      returns (ok: bool)
      requires Valid()
      modifies this
      ensures Valid()
      ensures || attachments == old(attachments)
              || (v in attachments && fresh(attachments[v]) && attachments == old(attachments)[v := attachments[v]])
      ensures (Contents(), ok) == Spec.Track(old(Contents()), v, n, mode, persisted, now)
    {
      if v in attachments {
        ok := attachments[v].IsAttachedToNode(n);
        return;
      }
      var state := new AttachmentState(Spec.NewRecord(n, mode, now));
      attachments := attachments[v := state];
      if !persisted {
        attachments := attachments - {v};
        assert attachments == old(attachments);
        return false;
      }
      OneEntryNew(v);
      ok := true;
    }

    method AddSecondaryAttachment(v: VolumeId, n: NodeId, timeout: int, now: Time) returns (ok: bool)
      requires Valid()
      modifies this, attachments.Values
      ensures Valid() && attachments == old(attachments)
      ensures (Contents(), ok) == Spec.AddSecondary(old(Contents()), v, n, timeout, now)
    {
      if v !in attachments {
        return false;
      }
      var existing := attachments[v];
      var attached := existing.IsAttachedToNode(n);
      if attached {
        return true;
      }
      if |existing.nodes| >= 2 {
        return false;
      }
      existing.nodes := existing.nodes + [NodeAttachment(n, now)];
      existing.migrationStartedAt := Some(now);
      existing.migrationTimeout := timeout;
      activeMigrations := activeMigrations + 1;
      OneEntryChanged(v);
      ok := true;
    }

    method UntrackAttachment(v: VolumeId, now: Time)
      requires Valid()
      modifies this
      ensures Valid() && attachments == old(attachments) - {v}
      ensures Contents() == Spec.Untrack(old(Contents()), v, now)
    {
      if v !in attachments {
        return;
      }
      detachTimestamps := detachTimestamps[v := now];
      attachments := attachments - {v};
      OneEntryGone(v);
    }

    method ClearDetachTimestamp(v: VolumeId)
      requires Valid()
      modifies this
      ensures Valid() && attachments == old(attachments)
      ensures Contents() == Spec.ClearDetach(old(Contents()), v)
    {
      detachTimestamps := detachTimestamps - {v};
    }

    method IsWithinGracePeriod(v: VolumeId, grace: int, now: Time) returns (within: bool)
      ensures within == Contents().WithinGrace(v, grace, now)
    {
      within := v in detachTimestamps && now - detachTimestamps[v] < grace;
    }

    /** The loop of RemoveNodeAttachment: copy every node but `n`, and say whether `n` was there. */
    static method SplitOff(nodes: seq<NodeAttachment>, n: NodeId) returns (rest: seq<NodeAttachment>, found: bool)
      ensures rest == Spec.Without(nodes, n)
      ensures found <==> exists j :: 0 <= j < |nodes| && nodes[j].nodeId == n
    {
      rest, found := [], false;
      for i := 0 to |nodes|
        invariant rest == Spec.Without(nodes[..i], n)
        invariant found <==> exists j :: 0 <= j < i && nodes[j].nodeId == n
      {
        assert nodes[..i + 1][..i] == nodes[..i];
        if nodes[i].nodeId == n {
          found := true;
        } else {
          rest := rest + [nodes[i]];
        }
      }
      assert nodes[..|nodes|] == nodes;
    }

    method RemoveNodeAttachment(v: VolumeId, n: NodeId, now: Time) returns (fullyDetached: bool)
      requires Valid()
      modifies this, attachments.Values
      ensures Valid() && (attachments == old(attachments) || attachments == old(attachments) - {v})
      ensures (Contents(), fullyDetached) == Spec.RemoveNode(old(Contents()), v, n, now)
    {
      if v !in attachments {
        return false;
      }
      var existing := attachments[v];
      var wasMigrating := existing.migrationStartedAt.Some?;
      var newNodes, found := SplitOff(existing.nodes, n);
      if !found {
        return false;
      }
      if newNodes == [] {
        detachTimestamps := detachTimestamps[v := now];
        attachments := attachments - {v};
        OneEntryGone(v);
        return true;
      }
      if |newNodes| == 1 {
        existing.migrationStartedAt := None;
        existing.migrationTimeout := 0;
        if wasMigrating {
          activeMigrations := activeMigrations - 1;
        }
      }
      existing.nodes := newNodes;
      existing.nodeId := newNodes[0].nodeId;
      assert existing.Value() == Spec.Dropped(old(existing.Value()), n);
      OneEntryChanged(v);
      fullyDetached := false;
    }
  }
}
