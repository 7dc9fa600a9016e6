/** Values shared by the attachment manager, the controller and the reconciler. */
module AttachmentTypes {
  type VolumeId = string
  type NodeId = string
  type Time = int

  datatype Option<+T> = None | Some(value: T)

  datatype AccessMode = RWO | RWX

  datatype NodeAttachment = NodeAttachment(nodeId: NodeId, attachedAt: Time)

  /** What one entry of the attachments map holds at one moment. */
  datatype Record = Record(
    nodeId: NodeId,
    nodes: seq<NodeAttachment>,
    attachedAt: Time,
    accessMode: AccessMode,
    migrationStartedAt: Option<Time>,
    migrationTimeout: int)
  {
    predicate AttachedTo(n: NodeId) {
      exists i :: 0 <= i < |nodes| && nodes[i].nodeId == n
    }

    predicate Migrating() {
      migrationStartedAt.Some? && |nodes| > 1
    }

    /** A migration with a timeout of zero never times out. */
    predicate TimedOut(now: Time) {
      migrationStartedAt.Some? && migrationTimeout != 0 && now - migrationStartedAt.value > migrationTimeout
    }

    ghost predicate DistinctNodes() {
      forall i, j :: 0 <= i < j < |nodes| ==> nodes[i].nodeId != nodes[j].nodeId
    }

    /** One or two distinct nodes, the first of them primary, and a migration exactly while there are two. */
    ghost predicate Valid() {
      && 1 <= |nodes| <= 2
      && DistinctNodes()
      && nodeId == nodes[0].nodeId
      && (migrationStartedAt.Some? <==> |nodes| == 2)
    }
  }

  /** The manager's two maps and the active-migrations gauge it drives. */
  datatype Tables = Tables(
    attachments: map<VolumeId, Record>,
    detached: map<VolumeId, Time>,
    gauge: int)
  {
    /** The relation the whole protocol is about: volume `v` is attached to node `n`. */
    predicate On(v: VolumeId, n: NodeId) {
      v in attachments && attachments[v].AttachedTo(n)
    }

    ghost predicate Valid() {
      forall v :: v in attachments ==> attachments[v].Valid()
    }

    predicate WithinGrace(v: VolumeId, grace: int, now: Time) {
      v in detached && now - detached[v] < grace
    }
  }

  const EmptyTables := Tables(map[], map[], 0)

  /** What a lookup of a Kubernetes node can answer. */
  datatype NodeAnswer = Exists | Gone | ApiError
}
