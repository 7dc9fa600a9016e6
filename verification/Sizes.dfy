/** Sizes as the driver prints them and the storage server understands them. */
module SizeFormat {
  import opened AttachmentTypes
  import opened Decimal

  const KB := 1024
  const MB := 1024 * 1024
  const GB := 1024 * 1024 * 1024
  const TB := 1024 * 1024 * 1024 * 1024

  function FormatBytes(bytes: nat): string {
    if bytes >= TB then Itoa(bytes / TB) + "T"
    else if bytes >= GB then Itoa(bytes / GB) + "G"
    else if bytes >= MB then Itoa(bytes / MB) + "M"
    else if bytes >= KB then Itoa(bytes / KB) + "K"
    else Itoa(bytes)
  }

  function UnitOf(c: char): nat {
    if c == 'T' then TB else if c == 'G' then GB else if c == 'M' then MB else if c == 'K' then KB else 0
  }

  /** The number of bytes a size string denotes: digits, then at most one unit letter. */
  function Denoted(s: string): Option<nat> {
    if s == [] then None
    else if AllDigits(s) then Some(Value(s))
    else
      var digits, unit := s[..|s| - 1], UnitOf(s[|s| - 1]);
      if digits != [] && AllDigits(digits) && unit > 0 then Some(Value(digits) * unit) else None
  }

  /** The unit that formatBytes chooses. */
  function ChosenUnit(bytes: nat): nat {
    if bytes >= TB then TB else if bytes >= GB then GB else if bytes >= MB then MB else if bytes >= KB then KB else 1
  }

  function RoundDown(bytes: nat): nat {
    bytes / ChosenUnit(bytes) * ChosenUnit(bytes)
  }

  lemma DenotedWithUnit(n: nat, c: char)
    requires c in {'K', 'M', 'G', 'T'}
    ensures Denoted(Itoa(n) + [c]) == Some(n * UnitOf(c))
  {
    ItoaRoundTrip(n);
    var s := Itoa(n) + [c];
    assert s[..|s| - 1] == Itoa(n);
    assert !IsDigit(s[|s| - 1]);
  }

  /** What is printed denotes the size rounded down to a whole number of the chosen unit. */
  lemma FormatDenotes(bytes: nat)
    ensures Denoted(FormatBytes(bytes)) == Some(RoundDown(bytes))
  {
    if bytes >= TB {
      DenotedWithUnit(bytes / TB, 'T');
    } else if bytes >= GB {
      DenotedWithUnit(bytes / GB, 'G');
    } else if bytes >= MB {
      DenotedWithUnit(bytes / MB, 'M');
    } else if bytes >= KB {
      DenotedWithUnit(bytes / KB, 'K');
    } else {
      ItoaRoundTrip(bytes);
    }
  }

  /** Rounding down to a whole number of units no larger than the size. */
  lemma FloorToUnit(bytes: nat, unit: nat)
    requires 1 <= unit <= bytes
    ensures unit <= bytes / unit * unit <= bytes < bytes / unit * unit + unit
    ensures bytes / unit * unit == bytes <==> bytes % unit == 0
  {
    assert bytes == unit * (bytes / unit) + bytes % unit;
    assert bytes / unit >= 1;
    assert bytes / unit * unit >= 1 * unit;
  }

  /** At most the size, more than half of it, and the size itself exactly for whole multiples of the unit. */
  lemma RoundDownBounds(bytes: nat)
    ensures RoundDown(bytes) <= bytes
    ensures bytes > 0 ==> bytes < 2 * RoundDown(bytes)
    ensures RoundDown(bytes) == bytes <==> bytes % ChosenUnit(bytes) == 0
    ensures ChosenUnit(RoundDown(bytes)) == ChosenUnit(bytes)
  {
    if bytes > 0 {
      FloorToUnit(bytes, ChosenUnit(bytes));
    }
  }

  lemma RoundDownIdempotent(bytes: nat)
    ensures RoundDown(RoundDown(bytes)) == RoundDown(bytes)
  {
    RoundDownBounds(bytes);
    RoundDownBounds(RoundDown(bytes));
  }

  lemma MulMonotone(x: int, y: int, unit: nat)
    requires x <= y
    ensures x * unit <= y * unit
  {}

  lemma DivMonotone(a: nat, b: nat, unit: nat)
    requires 1 <= unit <= a <= b
    ensures a / unit * unit <= b / unit * unit
  {
    var x, y := a / unit, b / unit;
    FloorToUnit(a, unit);
    FloorToUnit(b, unit);
    if x > y {
      MulMonotone(y + 1, x, unit);
    } else {
      MulMonotone(x, y, unit);
    }
  }

  lemma RoundDownMonotone(a: nat, b: nat)
    requires a <= b
    ensures RoundDown(a) <= RoundDown(b)
  {
    RoundDownBounds(a);
    RoundDownBounds(b);
    if a == 0 {
    } else if ChosenUnit(a) == ChosenUnit(b) {
      DivMonotone(a, b, ChosenUnit(a));
    } else {
      assert a < ChosenUnit(b) <= RoundDown(b);
    }
  }
}

/** What the commands do to the sizes stored on the server. */
module StoreSpec {
  import opened AttachmentTypes
  import opened SizeFormat

  type Id = string

  const MIN_VOLUME := GB
  const MAX_VOLUME := 16 * TB

  datatype Snapshot = Snapshot(size: nat, source: Id)

  datatype Store = Store(volumes: map<Id, nat>, snapshots: map<Id, Snapshot>)

  /** What is reported of a command that failed. */
  datatype Failure = NoConnection | NoSpace | OtherFailure

  /** A command may take effect although an error is reported; `ok` means it took effect and was verified. */
  datatype Outcome = Outcome(applied: bool, ok: bool, error: Failure)
  {
    predicate Reported() { applied && ok }
  }

  /** The server stores the number that the size string in the command denotes. */
  function Stored(bytes: nat): nat {
    var d := Denoted(FormatBytes(bytes));
    if d.Some? then d.value else 0
  }

  function AddDisk(st: Store, slot: Id, bytes: nat, o: Outcome): (Store, bool) {
    if slot in st.volumes || bytes == 0 then (st, false)
    else if o.applied then (st.(volumes := st.volumes[slot := Stored(bytes)]), o.Reported())
    else (st, false)
  }

  function ResizeDisk(st: Store, slot: Id, bytes: nat, o: Outcome): (Store, bool) {
    if slot !in st.volumes || bytes == 0 || bytes < st.volumes[slot] then (st, false)
    else if bytes == st.volumes[slot] then (st, true)
    else if o.applied then (st.(volumes := st.volumes[slot := Stored(bytes)]), o.Reported())
    else (st, false)
  }

  /** A copy takes its source's size. */
  function CopyToSnapshot(st: Store, snap: Id, source: Id, o: Outcome): (Store, bool) {
    if source !in st.volumes || snap in st.snapshots then (st, false)
    else if o.applied then
      (st.(snapshots := st.snapshots[snap := Snapshot(st.volumes[source], source)]), o.Reported())
    else (st, false)
  }

  function CopyFromSnapshot(st: Store, snap: Id, slot: Id, bytes: nat, o: Outcome): (Store, bool) {
    if snap !in st.snapshots then (st, false) else AddDisk(st, slot, bytes, o)
  }

  // ---- the controller's calls ----

  datatype Code = InvalidArgument | OutOfRange | AlreadyExists | NotFound | Unavailable | ResourceExhausted | Internal
  datatype Reply = Ok(capacity: int) | Expanded(capacity: int, onNode: bool) | Refused(code: Code)

  /** The code for a failed command; the calls differ in which failures they tell apart. */
  function CodeFor(f: Failure, connection: bool, space: bool): Code {
    if f == NoConnection && connection then Unavailable
    else if f == NoSpace && space then ResourceExhausted
    else Internal
  }

  /** A snapshot's id may be malformed, and its lookup may fail otherwise than by not finding it. */
  datatype Source = Empty | FromSnapshot(id: Id, valid: bool, answered: bool) | FromVolume

  /** `reachable` says whether the first lookup was answered; an unanswered one counts as "no such volume". */
  datatype CreateRequest = CreateRequest(
    name: Id, capabilities: bool, required: int, limit: int, validId: bool, params: bool, source: Source,
    reachable: bool, outcome: Outcome)

  /** The requested size after the minimum is applied. */
  function Effective(required: int): nat {
    if required < MIN_VOLUME then MIN_VOLUME else required
  }

  function CreateVolume(st: Store, req: CreateRequest): (Store, Reply) {
    var size := Effective(req.required);
    if req.name == "" || !req.capabilities then (st, Refused(InvalidArgument))
    else if (req.limit > 0 && size > req.limit) || size > MAX_VOLUME then (st, Refused(OutOfRange))
    else if !req.validId then (st, Refused(InvalidArgument))
    else if req.reachable && req.name in st.volumes then
      (st, if st.volumes[req.name] != size then Refused(AlreadyExists)
           else if !req.params then Refused(InvalidArgument)
           else Ok(size))
    else
      match req.source
      case FromVolume => (st, Refused(InvalidArgument))
      case FromSnapshot(id, valid, answered) =>
        if !valid then (st, Refused(InvalidArgument))
        else if !answered then (st, Refused(Internal))
        else RestoreVolume(st, req, id, size)
      case Empty =>
        if !req.params then (st, Refused(InvalidArgument)) else
        var (st', ok) := AddDisk(st, req.name, size, req.outcome);
        (st', if ok then Ok(size) else Refused(CodeFor(req.outcome.error, true, true)))
  }

  /** The size is raised to the snapshot's; the limits are not checked again. */
  function RestoreVolume(st: Store, req: CreateRequest, id: Id, size: nat): (Store, Reply) {
    if id !in st.snapshots then (st, Refused(NotFound))
    else if !req.params then (st, Refused(InvalidArgument))
    else
      var want := if size < st.snapshots[id].size then st.snapshots[id].size else size;
      var (st', ok) := CopyFromSnapshot(st, id, req.name, want, req.outcome);
      (st', if ok then Ok(want) else Refused(CodeFor(req.outcome.error, true, false)))
  }

  /** The node has to grow a file system, but not a block device, and nothing if the size was there. */
  function ExpandVolume(st: Store, v: Id, required: int, limit: int, validId: bool, reachable: bool, block: bool,
                        o: Outcome): (Store, Reply)
  {
    if v == "" || !validId || required == 0 then (st, Refused(InvalidArgument))
    else if required < MIN_VOLUME || (limit > 0 && required > limit) || required > MAX_VOLUME
    then (st, Refused(OutOfRange))
    else if !reachable || v !in st.volumes then (st, Refused(NotFound))
    else if st.volumes[v] >= required then (st, Expanded(st.volumes[v], false))
    else
      var (st', ok) := ResizeDisk(st, v, required, o);
      (st', if ok then Expanded(required, !block) else Refused(CodeFor(o.error, false, true)))
  }

  /**
   * `validId` is the check of the name and the source id; the snapshot id is derived from both. `reachable` and
   * `answered` say whether the lookups of the snapshot and of the source were answered.
   */
  function CreateSnapshot(st: Store, snap: Id, source: Id, validId: bool, reachable: bool, answered: bool, o: Outcome)
    : (Store, Reply)
  {
    if !validId then (st, Refused(InvalidArgument))
    else if reachable && snap in st.snapshots then
      (st, if st.snapshots[snap].source == source then Ok(st.snapshots[snap].size) else Refused(AlreadyExists))
    else if !answered then (st, Refused(Internal))
    else if source !in st.volumes then (st, Refused(NotFound))
    else
      var (st', ok) := CopyToSnapshot(st, snap, source, o);
      (st', if ok then Ok(st.volumes[source]) else Refused(CodeFor(o.error, true, false)))
  }

  // ---- sizes over whole runs ----

  datatype Step =
    | DoCreate(req: CreateRequest)
    | DoExpand(vol: Id, required: int, limit: int, validId: bool, reachable: bool, block: bool, o: Outcome)
    | DoSnapshot(snap: Id, source: Id, validId: bool, reachable: bool, answered: bool, o: Outcome)
    | DoDelete(vol: Id)
    | DoDeleteSnapshot(snap: Id)

  function Exec(st: Store, step: Step): Store {
    match step
    case DoCreate(req) => CreateVolume(st, req).0
    case DoExpand(v, required, limit, validId, reachable, block, o) =>
      ExpandVolume(st, v, required, limit, validId, reachable, block, o).0
    case DoSnapshot(snap, source, validId, reachable, answered, o) =>
      CreateSnapshot(st, snap, source, validId, reachable, answered, o).0
    case DoDelete(v) => st.(volumes := st.volumes - {v})
    case DoDeleteSnapshot(snap) => st.(snapshots := st.snapshots - {snap})
  }

  function Run(st: Store, steps: seq<Step>): Store {
    if steps == [] then st else Exec(Run(st, steps[..|steps| - 1]), steps[|steps| - 1])
  }

  /** Every stored size is one that the size format can say exactly. */
  ghost predicate Exact(st: Store) {
    && (forall v :: v in st.volumes ==> RoundDown(st.volumes[v]) == st.volumes[v])
    && (forall s :: s in st.snapshots ==> RoundDown(st.snapshots[s].size) == st.snapshots[s].size)
  }

  lemma StoredRounds(bytes: nat)
    ensures Stored(bytes) == RoundDown(bytes) && RoundDown(Stored(bytes)) == Stored(bytes)
  {
    FormatDenotes(bytes);
    RoundDownIdempotent(bytes);
  }

  /** One command: sizes stay exact, and no volume shrinks unless it is deleted. */
  lemma StepNeverShrinks(st: Store, step: Step)
    requires Exact(st)
    ensures Exact(Exec(st, step))
    ensures forall v :: v in st.volumes && step != DoDelete(v) ==>
              v in Exec(st, step).volumes && Exec(st, step).volumes[v] >= st.volumes[v]
  {
    match step
    case DoCreate(req) =>
      var size := Effective(req.required);
      StoredRounds(size);
      if req.source.FromSnapshot? && req.source.id in st.snapshots {
        StoredRounds(st.snapshots[req.source.id].size);
      }
    case DoExpand(v, required, limit, validId, reachable, block, o) =>
      if required > 0 {
        StoredRounds(required);
        if v in st.volumes && st.volumes[v] <= required {
          RoundDownMonotone(st.volumes[v], required);
        }
      }
    case DoSnapshot(snap, source, validId, reachable, answered, o) =>
    case DoDelete(v) =>
    case DoDeleteSnapshot(snap) =>
  }

  /** Over any run, a volume that is never deleted never gets smaller, whatever fails on the way. */
  lemma {:induction false} NeverShrinks(st: Store, steps: seq<Step>, v: Id)
    requires Exact(st) && v in st.volumes && DoDelete(v) !in steps
    ensures Exact(Run(st, steps)) && v in Run(st, steps).volumes && Run(st, steps).volumes[v] >= st.volumes[v]
  {
    if steps != [] {
      var init := steps[..|steps| - 1];
      assert steps[|steps| - 1] in steps;
      NeverShrinks(st, init, v);
      StepNeverShrinks(Run(st, init), steps[|steps| - 1]);
    }
  }

  lemma {:induction false} RunExact(st: Store, steps: seq<Step>)
    requires Exact(st)
    ensures Exact(Run(st, steps))
  {
    if steps != [] {
      RunExact(st, steps[..|steps| - 1]);
      StepNeverShrinks(Run(st, steps[..|steps| - 1]), steps[|steps| - 1]);
    }
  }

  /** After any run from an empty server, a restored volume is stored no smaller than its snapshot. */
  lemma RestoreKeepsSize(steps: seq<Step>, req: CreateRequest)
    requires req.source.FromSnapshot? && req.name !in Run(Store(map[], map[]), steps).volumes
    requires CreateVolume(Run(Store(map[], map[]), steps), req).1.Ok?
    ensures var st := Run(Store(map[], map[]), steps);
            var st' := CreateVolume(st, req).0;
            && req.source.id in st.snapshots && req.name in st'.volumes
            && st'.volumes[req.name] >= st.snapshots[req.source.id].size
  {
    var st := Run(Store(map[], map[]), steps);
    RunExact(Store(map[], map[]), steps);
    var snap := st.snapshots[req.source.id].size;
    var size := Effective(req.required);
    var want := if size < snap then snap else size;
    StoredRounds(want);
    RoundDownMonotone(snap, want);
  }

  /** The size a creation is after: what was asked for, raised to the snapshot's size when there is one. */
  function Wanted(st: Store, req: CreateRequest): nat {
    var size := Effective(req.required);
    if req.source.FromSnapshot? && req.source.id in st.snapshots && size < st.snapshots[req.source.id].size
    then st.snapshots[req.source.id].size else size
  }

  /**
   * A successful creation, empty or from a snapshot, stores at most the size it is after and more than half of it; all
   * of it exactly for whole multiples of the printed unit, although the reply always claims the whole.
   */
  lemma CreateStores(st: Store, req: CreateRequest)
    requires req.name !in st.volumes && CreateVolume(st, req).1.Ok?
    ensures var (st', reply) := CreateVolume(st, req);
            var r := Wanted(st, req);
            && reply == Ok(r) && req.name in st'.volumes
            && st'.volumes[req.name] <= r < 2 * st'.volumes[req.name]
            && (st'.volumes[req.name] == r <==> r % ChosenUnit(r) == 0)
  {
    StoredRounds(Wanted(st, req));
    RoundDownBounds(Wanted(st, req));
  }

  /**
   * Repeating a successful creation gives the same reply exactly for sizes of that kind that no snapshot raised; in
   * every other case it reports a conflict. Snapshots have exact sizes in every run from an empty server.
   */
  lemma CreateIsIdempotentIff(st: Store, req: CreateRequest)
    requires req.name !in st.volumes && req.reachable && CreateVolume(st, req).1.Ok?
    requires req.source.FromSnapshot? ==> Exact(st)
    ensures var (st', reply) := CreateVolume(st, req);
            var (st'', again) := CreateVolume(st', req);
            var r := Wanted(st, req);
            && st'' == st'
            && (again == reply <==> r == Effective(req.required) && r % ChosenUnit(r) == 0)
            && (again != reply ==> again == Refused(AlreadyExists))
  {
    CreateStores(st, req);
    StoredRounds(Wanted(st, req));
    RoundDownBounds(Wanted(st, req));
  }

  /** An expansion that reports success has stored the size asked for exactly when it was there or prints exactly. */
  lemma ExpandReaches(st: Store, v: Id, required: int, limit: int, validId: bool, reachable: bool, block: bool,
                      o: Outcome)
    requires Exact(st) && ExpandVolume(st, v, required, limit, validId, reachable, block, o).1.Expanded?
    ensures var (st', reply) := ExpandVolume(st, v, required, limit, validId, reachable, block, o);
            && required > 0 && v in st'.volumes
            && (st'.volumes[v] >= required <==> st.volumes[v] >= required || required % ChosenUnit(required) == 0)
            && (reply.onNode <==> st.volumes[v] < required && !block)
  {
    StoredRounds(required);
    RoundDownBounds(required);
  }

  /** One byte over a gigabyte is created as claimed, and refused as a conflict when asked for again. */
  lemma OddSizeConflicts(o: Outcome)
    requires o.Reported()
    ensures var req := CreateRequest("v", true, GB + 1, 0, true, true, Empty, true, o);
            var (st, reply) := CreateVolume(Store(map[], map[]), req);
            reply == Ok(GB + 1) && CreateVolume(st, req).1 == Refused(AlreadyExists)
  {
    var req := CreateRequest("v", true, GB + 1, 0, true, true, Empty, true, o);
    CreateIsIdempotentIff(Store(map[], map[]), req);
  }

  /** An expansion of a new volume by one byte reports the larger size and stores less. */
  lemma OddExpansionFallsShort(o: Outcome)
    requires o.Reported()
    ensures var req := CreateRequest("v", true, GB, 0, true, true, Empty, true, o);
            var st := CreateVolume(Store(map[], map[]), req).0;
            var (st', reply) := ExpandVolume(st, "v", GB + 1, 0, true, true, false, o);
            && st.volumes == map["v" := GB]
            && reply == Expanded(GB + 1, true) && "v" in st'.volumes && st'.volumes["v"] < GB + 1
  {
    var req := CreateRequest("v", true, GB, 0, true, true, Empty, true, o);
    var st := CreateVolume(Store(map[], map[]), req).0;
    CreateStores(Store(map[], map[]), req);
    StepNeverShrinks(Store(map[], map[]), DoCreate(req));
    assert st.volumes == map["v" := GB];
    ExpandReaches(st, "v", GB + 1, 0, true, true, false, o);
  }
}

/** The same calls as the source makes them, on a server whose state they change. */
module Stores {
  import opened StoreSpec
  import opened SizeFormat

  class RdsServer {
    var volumes: map<Id, nat>
    var snapshots: map<Id, Snapshot>

    ghost function Value(): Store
      reads this
    {
      Store(volumes, snapshots)
    }

    constructor ()
      ensures Value() == Store(map[], map[])
    {
      volumes, snapshots := map[], map[];
    }

    method CreateVolume(slot: Id, bytes: nat, o: Outcome) returns (ok: bool)
      modifies this
      ensures (Value(), ok) == AddDisk(old(Value()), slot, bytes, o)
    {
      if bytes == 0 || slot in volumes || !o.applied {
        return false;
      }
      volumes := volumes[slot := Stored(bytes)];
      ok := o.ok;
    }

    method ResizeVolume(slot: Id, bytes: nat, o: Outcome) returns (ok: bool)
      modifies this
      ensures (Value(), ok) == ResizeDisk(old(Value()), slot, bytes, o)
    {
      if bytes == 0 || slot !in volumes || bytes < volumes[slot] {
        return false;
      }
      if bytes == volumes[slot] {
        return true;
      }
      if !o.applied {
        return false;
      }
      volumes := volumes[slot := Stored(bytes)];
      ok := o.ok;
    }

    method CreateSnapshot(snap: Id, source: Id, o: Outcome) returns (ok: bool)
      modifies this
      ensures (Value(), ok) == CopyToSnapshot(old(Value()), snap, source, o)
    {
      if source !in volumes || snap in snapshots || !o.applied {
        return false;
      }
      snapshots := snapshots[snap := Snapshot(volumes[source], source)];
      ok := o.ok;
    }

    method RestoreSnapshot(snap: Id, slot: Id, bytes: nat, o: Outcome) returns (ok: bool)
      modifies this
      ensures (Value(), ok) == CopyFromSnapshot(old(Value()), snap, slot, bytes, o)
    {
      if snap !in snapshots {
        return false;
      }
      ok := CreateVolume(slot, bytes, o);
    }
  }

  class VolumeController {
    const rds: RdsServer

    constructor (rds: RdsServer)
      ensures this.rds == rds
    {
      this.rds := rds;
    }

    method CreateVolume(req: CreateRequest) returns (reply: Reply)
      modifies rds
      ensures (rds.Value(), reply) == StoreSpec.CreateVolume(old(rds.Value()), req)
    {
      if req.name == "" || !req.capabilities {
        return Refused(InvalidArgument);
      }
      var size: nat := if req.required < MIN_VOLUME then MIN_VOLUME else req.required;
      if (req.limit > 0 && size > req.limit) || size > MAX_VOLUME {
        return Refused(OutOfRange);
      }
      if !req.validId {
        return Refused(InvalidArgument);
      }
      if req.reachable && req.name in rds.volumes {
        if rds.volumes[req.name] != size {
          return Refused(AlreadyExists);
        }
        return if req.params then Ok(size) else Refused(InvalidArgument);
      }
      var ok, exhausted := false, false;
      match req.source {
        case FromVolume => return Refused(InvalidArgument);
        case FromSnapshot(id, valid, answered) =>
          if !valid {
            return Refused(InvalidArgument);
          }
          if !answered {
            return Refused(Internal);
          }
          if id !in rds.snapshots {
            return Refused(NotFound);
          }
          if size < rds.snapshots[id].size {
            size := rds.snapshots[id].size;
          }
          if !req.params {
            return Refused(InvalidArgument);
          }
          ok := rds.RestoreSnapshot(id, req.name, size, req.outcome);
        case Empty =>
          if !req.params {
            return Refused(InvalidArgument);
          }
          ok := rds.CreateVolume(req.name, size, req.outcome);
          exhausted := req.outcome.error == NoSpace;
      }
      if ok {
        return Ok(size);
      }
      if req.outcome.error == NoConnection {
        return Refused(Unavailable);
      }
      reply := Refused(if exhausted then ResourceExhausted else Internal);
    }

    method ControllerExpandVolume(v: Id, required: int, limit: int, validId: bool, reachable: bool, block: bool,
                                  o: Outcome)
      returns (reply: Reply)
      modifies rds
      ensures (rds.Value(), reply) == ExpandVolume(old(rds.Value()), v, required, limit, validId, reachable, block, o)
    {
      if v == "" || !validId || required == 0 {
        return Refused(InvalidArgument);
      }
      if required < MIN_VOLUME || (limit > 0 && required > limit) || required > MAX_VOLUME {
        return Refused(OutOfRange);
      }
      if !reachable || v !in rds.volumes {
        return Refused(NotFound);
      }
      if rds.volumes[v] >= required {
        return Expanded(rds.volumes[v], false);
      }
      var ok := rds.ResizeVolume(v, required, o);
      if !ok {
        return Refused(if o.error == NoSpace then ResourceExhausted else Internal);
      }
      reply := Expanded(required, !block);
    }
  }
}
