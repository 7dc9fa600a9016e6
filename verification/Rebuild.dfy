/** Recovery of the attachments from the cluster's VolumeAttachment objects after a restart. */
module RebuildSpec {
  import opened AttachmentTypes

  const DRIVER_NAME := "rds.csi.srvlab.io"
  const READ_WRITE_MANY := "ReadWriteMany"

  datatype VolumeAttachment = VolumeAttachment(
    attacher: string, pvName: Option<VolumeId>, nodeName: NodeId, createdAt: Time, attached: bool)
  {
    /** The objects that survive the three filters: ours, attached, and naming a volume. */
    predicate Counts() {
      attacher == DRIVER_NAME && attached && pvName.Some? && pvName.value != ""
    }

    predicate Says(v: VolumeId, n: NodeId) {
      Counts() && pvName.value == v && nodeName == n
    }
  }

  /** The access modes of the persistent volumes; a volume that cannot be looked up is missing. */
  type PvModes = map<VolumeId, seq<string>>

  function LookupMode(pvs: PvModes, v: VolumeId): AccessMode {
    if v in pvs && READ_WRITE_MANY in pvs[v] then RWX else RWO
  }

  /** The objects that count for volume `v`, in list order. */
  function OfVolume(vas: seq<VolumeAttachment>, v: VolumeId): seq<VolumeAttachment> {
    if vas == [] then []
    else
      var rest, last := OfVolume(vas[..|vas| - 1], v), vas[|vas| - 1];
      if last.Counts() && last.pvName.value == v then rest + [last] else rest
  }

  function Named(vas: seq<VolumeAttachment>): set<VolumeId> {
    set i | 0 <= i < |vas| && vas[i].Counts() :: vas[i].pvName.value
  }

  function Older(group: seq<VolumeAttachment>): Time
    requires group != []
  {
    if |group| == 1 || group[0].createdAt < group[1].createdAt then group[0].createdAt else group[1].createdAt
  }

  /** Only the first two objects of a volume are used; the older of the two dates the migration. */
  function RebuildRecord(group: seq<VolumeAttachment>, mode: AccessMode): Record
    requires group != []
  {
    var first := NodeAttachment(group[0].nodeName, group[0].createdAt);
    if |group| == 1 then
      Record(first.nodeId, [first], first.attachedAt, mode, None, 0)
    else
      var second := NodeAttachment(group[1].nodeName, group[1].createdAt);
      Record(first.nodeId, [first, second], Older(group), mode, Some(Older(group)), 0)
  }

  function Rebuild(s: Tables, vas: seq<VolumeAttachment>, pvs: PvModes): Tables {
    s.(attachments :=
         map v | v in Named(vas) && OfVolume(vas, v) != [] :: RebuildRecord(OfVolume(vas, v), LookupMode(pvs, v)))
  }

  /** Membership in a group, both ways, and the order in which the list gives it. */
  lemma {:induction false} OfVolumeMembers(vas: seq<VolumeAttachment>, v: VolumeId)
    ensures forall a :: a in OfVolume(vas, v) <==> a in vas && a.Counts() && a.pvName.value == v
    ensures OfVolume(vas, v) != [] <==> v in Named(vas)
  {
    if vas != [] {
      var init, last := vas[..|vas| - 1], vas[|vas| - 1];
      OfVolumeMembers(init, v);
      assert vas == init + [last];
      if v in Named(vas) {
        var i :| 0 <= i < |vas| && vas[i].Counts() && vas[i].pvName.value == v;
        assert vas[i] in vas;
      }
      if OfVolume(vas, v) != [] {
        var a := OfVolume(vas, v)[0];
        assert a in OfVolume(vas, v);
        var i :| 0 <= i < |vas| && vas[i] == a;
        assert vas[i].Counts();
      }
    }
  }

  /** No two objects say the same thing. */
  ghost predicate NoDuplicates(vas: seq<VolumeAttachment>) {
    forall i, j, v, n :: 0 <= i < j < |vas| && vas[i].Says(v, n) ==> !vas[j].Says(v, n)
  }

  lemma {:induction false} OfVolumeDistinct(vas: seq<VolumeAttachment>, v: VolumeId)
    requires NoDuplicates(vas)
    ensures var g := OfVolume(vas, v); forall i, j :: 0 <= i < j < |g| ==> g[i].nodeName != g[j].nodeName
  {
    if vas != [] {
      var init, last := vas[..|vas| - 1], vas[|vas| - 1];
      OfVolumeDistinct(init, v);
      OfVolumeMembers(init, v);
      if last.Counts() && last.pvName.value == v {
        var g := OfVolume(init, v);
        forall i | 0 <= i < |g| ensures g[i].nodeName != last.nodeName {
          assert g[i] in g;
          var k :| 0 <= k < |init| && init[k] == g[i];
          assert vas[k].Says(v, g[i].nodeName) && !vas[|vas| - 1].Says(v, g[i].nodeName);
        }
      }
    }
  }

  /** A rebuilt entry: valid exactly when its first two objects name different nodes. */
  lemma RebuildRecordValid(group: seq<VolumeAttachment>, mode: AccessMode)
    requires group != []
    ensures RebuildRecord(group, mode).Valid() <==> (|group| >= 2 ==> group[0].nodeName != group[1].nodeName)
    ensures forall n :: RebuildRecord(group, mode).AttachedTo(n) <==>
              group[0].nodeName == n || (|group| >= 2 && group[1].nodeName == n)
  {
    var r := RebuildRecord(group, mode);
    assert r.nodes[0].nodeId == group[0].nodeName;
    assert |group| >= 2 ==> r.nodes[1].nodeId == group[1].nodeName;
  }

  /** Rebuilt tables are valid exactly when the first two objects of every volume name different nodes. */
  lemma RebuildValid(s: Tables, vas: seq<VolumeAttachment>, pvs: PvModes)
    ensures Rebuild(s, vas, pvs).Valid() <==>
            forall v :: v in Named(vas) && |OfVolume(vas, v)| >= 2 ==>
              OfVolume(vas, v)[0].nodeName != OfVolume(vas, v)[1].nodeName
  {
    var t := Rebuild(s, vas, pvs);
    forall v | v in Named(vas)
      ensures v in t.attachments
      ensures t.attachments[v].Valid() <==>
              (|OfVolume(vas, v)| >= 2 ==> OfVolume(vas, v)[0].nodeName != OfVolume(vas, v)[1].nodeName)
    {
      OfVolumeMembers(vas, v);
      RebuildRecordValid(OfVolume(vas, v), LookupMode(pvs, v));
    }
  }

  /** The VolumeAttachments say exactly what the tables track, each pair once. */
  ghost predicate Mirrors(vas: seq<VolumeAttachment>, s: Tables) {
    && NoDuplicates(vas)
    && forall v, n :: s.On(v, n) <==> exists i :: 0 <= i < |vas| && vas[i].Says(v, n)
  }

  lemma MirroredGroup(vas: seq<VolumeAttachment>, s: Tables, v: VolumeId)
    requires s.Valid() && Mirrors(vas, s) && v in s.attachments
    ensures var g, r := OfVolume(vas, v), s.attachments[v];
            && |g| == |r.nodes|
            && (forall n :: r.AttachedTo(n) <==> exists i :: 0 <= i < |g| && g[i].nodeName == n)
            && (|g| == 2 ==> g[0].nodeName != g[1].nodeName)
  {
    var g, r := OfVolume(vas, v), s.attachments[v];
    OfVolumeMembers(vas, v);
    OfVolumeDistinct(vas, v);
    forall n ensures r.AttachedTo(n) <==> exists i :: 0 <= i < |g| && g[i].nodeName == n {
      assert s.On(v, n) <==> r.AttachedTo(n);
      if r.AttachedTo(n) {
        var k :| 0 <= k < |vas| && vas[k].Says(v, n);
        assert vas[k] in g;
        var i :| 0 <= i < |g| && g[i] == vas[k];
        assert g[i].nodeName == n;
      }
      if i :| 0 <= i < |g| && g[i].nodeName == n {
        assert g[i] in g;
        var k :| 0 <= k < |vas| && vas[k] == g[i];
        assert vas[k].Says(v, n);
      }
    }
    SameSize(g, r);
  }

  /** Distinct names covering the same one or two nodes are as many. */
  lemma SameSize(g: seq<VolumeAttachment>, r: Record)
    requires r.Valid()
    requires forall i, j :: 0 <= i < j < |g| ==> g[i].nodeName != g[j].nodeName
    requires forall n :: r.AttachedTo(n) <==> exists i :: 0 <= i < |g| && g[i].nodeName == n
    ensures |g| == |r.nodes|
  {
    DistinctNames(g);
    assert forall n :: n in Names(g) <==> r.AttachedTo(n);
    if |r.nodes| == 2 {
      assert Names(g) == {r.nodes[0].nodeId, r.nodes[1].nodeId};
    } else {
      assert Names(g) == {r.nodes[0].nodeId};
    }
  }

  ghost function Names(g: seq<VolumeAttachment>): set<NodeId> {
    set i | 0 <= i < |g| :: g[i].nodeName
  }

  lemma {:induction false} DistinctNames(g: seq<VolumeAttachment>)
    requires forall i, j :: 0 <= i < j < |g| ==> g[i].nodeName != g[j].nodeName
    ensures |Names(g)| == |g|
  {
    if g != [] {
      var init := g[..|g| - 1];
      DistinctNames(init);
      assert Names(g) == Names(init) + {g[|g| - 1].nodeName};
    }
  }

  /** Same nodes as a set, and a migration in progress in both or in neither. */
  ghost predicate Similar(a: Record, b: Record) {
    && a.Valid() && b.Valid()
    && |a.nodes| == |b.nodes|
    && (forall n :: a.AttachedTo(n) <==> b.AttachedTo(n))
  }

  /** A restart recovers the volumes, the node sets and which volumes are migrating. */
  lemma RebuildRecovers(s: Tables, t0: Tables, vas: seq<VolumeAttachment>, pvs: PvModes)
    requires s.Valid() && Mirrors(vas, s)
    ensures var t := Rebuild(t0, vas, pvs);
            && t.Valid()
            && t.attachments.Keys == s.attachments.Keys
            && (forall v :: v in s.attachments ==>
                  && Similar(s.attachments[v], t.attachments[v])
                  && (s.attachments[v].Migrating() <==> t.attachments[v].Migrating()))
  {
    var t := Rebuild(t0, vas, pvs);
    forall v ensures v in t.attachments <==> v in s.attachments {
      OfVolumeMembers(vas, v);
      if v in Named(vas) {
        var i :| 0 <= i < |vas| && vas[i].Counts() && vas[i].pvName.value == v;
        assert vas[i].Says(v, vas[i].nodeName);
        assert s.On(v, vas[i].nodeName);
      }
      if v in s.attachments {
        MirroredGroup(vas, s, v);
      }
    }
    forall v | v in s.attachments ensures v in t.attachments && Similar(s.attachments[v], t.attachments[v]) {
      MirroredGroup(vas, s, v);
      RebuildRecordValid(OfVolume(vas, v), LookupMode(pvs, v));
    }
  }
}

/** The same recovery as the source runs it: filter, group, then rebuild volume by volume. */
module Rebuilding {
  import opened AttachmentTypes
  import opened RebuildSpec
  import opened Attachments

  function Ours(vas: seq<VolumeAttachment>): seq<VolumeAttachment> {
    if vas == [] then []
    else
      var rest, last := Ours(vas[..|vas| - 1]), vas[|vas| - 1];
      if last.attacher == DRIVER_NAME then rest + [last] else rest
  }

  function Attached(vas: seq<VolumeAttachment>): seq<VolumeAttachment> {
    if vas == [] then []
    else
      var rest, last := Attached(vas[..|vas| - 1]), vas[|vas| - 1];
      if last.attached then rest + [last] else rest
  }

  function ByName(vas: seq<VolumeAttachment>, v: VolumeId): seq<VolumeAttachment> {
    if vas == [] then []
    else
      var rest, last := ByName(vas[..|vas| - 1], v), vas[|vas| - 1];
      if last.pvName == Some(v) && v != "" then rest + [last] else rest
  }

  lemma {:induction false} FiltersCompose(vas: seq<VolumeAttachment>, v: VolumeId)
    ensures ByName(Attached(Ours(vas)), v) == OfVolume(vas, v)
  {
    if vas != [] {
      var init, last := vas[..|vas| - 1], vas[|vas| - 1];
      FiltersCompose(init, v);
      if last.attacher == DRIVER_NAME {
        assert (Ours(init) + [last])[..|Ours(init)|] == Ours(init);
        if last.attached {
          assert (Attached(Ours(init)) + [last])[..|Attached(Ours(init))|] == Attached(Ours(init));
        }
      }
    }
  }

  method ListDriverVolumeAttachments(items: seq<VolumeAttachment>) returns (result: seq<VolumeAttachment>)
    ensures result == Ours(items)
  {
    result := [];
    for i := 0 to |items|
      invariant result == Ours(items[..i])
    {
      assert items[..i + 1][..i] == items[..i];
      if items[i].attacher == DRIVER_NAME {
        result := result + [items[i]];
      }
    }
    assert items[..|items|] == items;
  }

  method FilterAttachedVolumeAttachments(vas: seq<VolumeAttachment>) returns (result: seq<VolumeAttachment>)
    ensures result == Attached(vas)
  {
    result := [];
    for i := 0 to |vas|
      invariant result == Attached(vas[..i])
    {
      assert vas[..i + 1][..i] == vas[..i];
      if vas[i].attached {
        result := result + [vas[i]];
      }
    }
    assert vas[..|vas|] == vas;
  }

  method GroupVolumeAttachmentsByVolume(vas: seq<VolumeAttachment>)
    returns (result: map<VolumeId, seq<VolumeAttachment>>)
    ensures forall v :: v in result <==> ByName(vas, v) != []
    ensures forall v :: v in result ==> result[v] == ByName(vas, v)
  {
    result := map[];
    for i := 0 to |vas|
      invariant forall v :: v in result <==> ByName(vas[..i], v) != []
      invariant forall v :: v in result ==> result[v] == ByName(vas[..i], v)
    {
      assert vas[..i + 1][..i] == vas[..i];
      var va := vas[i];
      if va.pvName.Some? && va.pvName.value != "" {
        var v := va.pvName.value;
        result := result[v := (if v in result then result[v] else []) + [va]];
      }
    }
    assert vas[..|vas|] == vas;
  }

  /** No objects is an error; more than two are cut to two. */
  method RebuildVolumeState(group: seq<VolumeAttachment>, mode: AccessMode) returns (state: Option<Record>)
    ensures state == if group == [] then None else Some(RebuildRecord(group, mode))
  {
    if group == [] {
      return None;
    }
    var vas := if |group| > 2 then group[..2] else group;
    var nodes: seq<NodeAttachment>, firstAttachedAt := [], 0;
    for i := 0 to |vas|
      invariant |nodes| == i
      invariant forall j :: 0 <= j < i ==> nodes[j] == NodeAttachment(group[j].nodeName, group[j].createdAt)
      invariant i == 1 ==> firstAttachedAt == group[0].createdAt
      invariant i == 2 ==> firstAttachedAt == Older(group)
    {
      nodes := nodes + [NodeAttachment(vas[i].nodeName, vas[i].createdAt)];
      if i == 0 || vas[i].createdAt < firstAttachedAt {
        firstAttachedAt := vas[i].createdAt;
      }
    }
    var started := None;
    if |vas| > 1 {
      started := Some(if vas[0].createdAt < vas[1].createdAt then vas[0].createdAt else vas[1].createdAt);
    }
    assert nodes == if |group| == 1 then [nodes[0]] else [nodes[0], nodes[1]];
    state := Some(Record(nodes[0].nodeId, nodes, firstAttachedAt, mode, started, 0));
  }

  /** The entries that a grouping gives, whatever order its volumes are taken in. */
  function Entries(groups: map<VolumeId, seq<VolumeAttachment>>, pvs: PvModes): map<VolumeId, Record> {
    map v | v in groups && groups[v] != [] :: RebuildRecord(groups[v], LookupMode(pvs, v))
  }

  lemma GroupsRebuild(s: Tables, vas: seq<VolumeAttachment>, groups: map<VolumeId, seq<VolumeAttachment>>, pvs: PvModes)
    requires forall v :: v in groups <==> ByName(Attached(Ours(vas)), v) != []
    requires forall v :: v in groups ==> groups[v] == ByName(Attached(Ours(vas)), v)
    ensures Entries(groups, pvs) == Rebuild(s, vas, pvs).attachments
  {
    forall v ensures v in groups <==> v in Named(vas)
             ensures v in groups ==> groups[v] == OfVolume(vas, v) && groups[v] != []
    {
      FiltersCompose(vas, v);
      OfVolumeMembers(vas, v);
    }
  }

  /** The rebuilding loop: one fresh state object per volume. */
  method FillAttachments(am: AttachmentManager, groups: map<VolumeId, seq<VolumeAttachment>>, pvs: PvModes)
    modifies am`attachments
    ensures am.Valid() && am.Contents().attachments == Entries(groups, pvs)
  {
    am.attachments := map[];
    var todo := groups.Keys;
    while todo != {}
      invariant todo <= groups.Keys && am.Valid()
      invariant forall v :: v in am.attachments <==> v in groups && v !in todo && groups[v] != []
      invariant forall v :: v in am.attachments ==>
                  fresh(am.attachments[v]) && am.attachments[v].Value() == RebuildRecord(groups[v], LookupMode(pvs, v))
      decreases todo
    {
      var v :| v in todo;
      todo := todo - {v};
      var r := RebuildVolumeState(groups[v], LookupMode(pvs, v));
      if r.Some? {
        var state := new AttachmentState(r.value);
        am.attachments := am.attachments[v := state];
      }
    }
  }

  /**
   * Without a Kubernetes client there is nothing to do, and a failed listing changes nothing; otherwise the attachments
   * are replaced and the timestamps kept.
   */
  method RebuildStateFromVolumeAttachments(am: AttachmentManager, client: bool, listing: Option<seq<VolumeAttachment>>,
                                           pvs: PvModes)
    returns (ok: bool)
    requires am.Valid()
    modifies am
    ensures am.Valid() && ok == (!client || listing.Some?)
    ensures am.Contents()
         == if client && listing.Some? then Rebuild(old(am.Contents()), listing.value, pvs) else old(am.Contents())
  {
    if !client {
      return true;
    }
    if listing.None? {
      return false;
    }
    var ours := ListDriverVolumeAttachments(listing.value);
    var attached := FilterAttachedVolumeAttachments(ours);
    var groups := GroupVolumeAttachmentsByVolume(attached);
    GroupsRebuild(am.Contents(), listing.value, groups, pvs);
    FillAttachments(am, groups, pvs);
    ok := true;
  }
}
