/** One reconciliation pass over the attachments. */
module ReconcileSpec {
  import opened AttachmentTypes
  import opened ManagerSpec

  /** The primary node is known to be gone and the last detach of the volume is not recent. */
  predicate Stale(s: Tables, v: VolumeId, answer: NodeAnswer, grace: int, now: Time) {
    v in s.attachments && answer == Gone && !s.WithinGrace(v, grace, now)
  }

  /** The stale volumes of a set, looked up by their primary nodes. */
  function StaleAmong(s: Tables, vols: set<VolumeId>, lister: NodeId -> NodeAnswer, grace: int, now: Time)
    : set<VolumeId>
  {
    set v | v in vols && v in s.attachments && Stale(s, v, lister(s.attachments[v].nodeId), grace, now)
  }

  function Clear(s: Tables, vols: set<VolumeId>, now: Time): Tables {
    Tables(s.attachments - vols, s.detached + map v | v in vols :: now, s.gauge)
  }

  function Pass(s: Tables, lister: NodeId -> NodeAnswer, grace: int, now: Time): Tables {
    Clear(s, StaleAmong(s, s.attachments.Keys, lister, grace, now), now)
  }

  /**
   * A full pass takes away every node of exactly the volumes whose primary node is gone and whose last detach
   * is not within grace, stamps those, and leaves every other entry and timestamp as it was.
   */
  lemma PassRemovesExactlyStale(s: Tables, lister: NodeId -> NodeAnswer, grace: int, now: Time)
    ensures var t := Pass(s, lister, grace, now);
            forall v ::
              var stale :=
                v in s.attachments && lister(s.attachments[v].nodeId) == Gone && !s.WithinGrace(v, grace, now);
              && (forall m :: t.On(v, m) <==> s.On(v, m) && !stale)
              && (stale ==> v !in t.attachments && v in t.detached && t.detached[v] == now)
              && (!stale ==> (v in t.attachments <==> v in s.attachments) && (v in t.detached <==> v in s.detached))
              && (!stale && v in s.attachments ==> t.attachments[v] == s.attachments[v])
              && (!stale && v in s.detached ==> t.detached[v] == s.detached[v])
  {}

  /** A second pass at the same clock and node set does nothing. */
  lemma SecondPassIdle(s: Tables, lister: NodeId -> NodeAnswer, grace: int, now: Time)
    ensures var t := Pass(s, lister, grace, now); Pass(t, lister, grace, now) == t
  {
    var t := Pass(s, lister, grace, now);
    var again := StaleAmong(t, t.attachments.Keys, lister, grace, now);
    PassRemovesExactlyStale(s, lister, grace, now);
    assert forall v :: v in t.attachments ==>
        t.attachments[v] == s.attachments[v] && (t.WithinGrace(v, grace, now) <==> s.WithinGrace(v, grace, now));
    assert again == {};
  }

  lemma ClearKeepsValid(s: Tables, vols: set<VolumeId>, now: Time)
    requires s.Valid()
    ensures Clear(s, vols, now).Valid()
  {}

  /** Clearing one more volume is an Untrack; other clears do not change whether it was stale. */
  lemma ClearOneMore(s: Tables, done: set<VolumeId>, v: VolumeId, now: Time)
    requires v in s.attachments && v !in done
    ensures Untrack(Clear(s, done, now), v, now) == Clear(s, done + {v}, now)
    ensures forall grace, at :: Clear(s, done, now).WithinGrace(v, grace, at) <==> s.WithinGrace(v, grace, at)
  {
    var c := Clear(s, done, now);
    assert v in c.attachments;
    assert c.attachments - {v} == s.attachments - (done + {v});
    assert c.detached[v := now] == s.detached + map x | x in done + {v} :: now;
  }
}

module Reconcilers {
  import opened AttachmentTypes
  import opened ReconcileSpec
  import opened Attachments

  const SECOND := 1_000_000_000

  class AttachmentReconciler {
    const manager: AttachmentManager
    const interval: int
    const gracePeriod: int

    constructor (manager: AttachmentManager, interval: int, gracePeriod: int)
      ensures this.manager == manager && this.interval == interval && this.gracePeriod == gracePeriod
    {
      this.manager, this.interval, this.gracePeriod := manager, interval, gracePeriod;
    }

    /** `given` says whether the Kubernetes client and both listers are there; the result is null on an error. */
    static method NewAttachmentReconciler(manager: AttachmentManager?, given: bool, interval: int, gracePeriod: int)
      returns (r: AttachmentReconciler?)
      ensures r == null <==> manager == null || !given
      ensures r != null ==> fresh(r) && r.manager == manager && r.interval > 0 && r.gracePeriod > 0
      ensures r != null ==> r.interval == (if interval > 0 then interval else 300 * SECOND)
      ensures r != null ==> r.gracePeriod == (if gracePeriod > 0 then gracePeriod else 30 * SECOND)
    {
      if manager == null || !given {
        return null;
      }
      var every, grace := interval, gracePeriod;
      if every <= 0 {
        every := 300 * SECOND;
      }
      if grace <= 0 {
        grace := 30 * SECOND;
      }
      r := new AttachmentReconciler(manager, every, grace);
    }

    /** The stale volumes among those visited so far. */
    ghost function Found(s: Tables, visited: set<VolumeId>, lister: NodeId -> NodeAnswer, now: Time): set<VolumeId> {
      StaleAmong(s, visited, lister, gracePeriod, now)
    }

    lemma FoundOneMore(s: Tables, visited: set<VolumeId>, v: VolumeId, lister: NodeId -> NodeAnswer, now: Time)
      requires v in s.attachments && v !in visited
      ensures var stale := Stale(s, v, lister(s.attachments[v].nodeId), gracePeriod, now);
              && Found(s, visited + {v}, lister, now) == Found(s, visited, lister, now) + (if stale then {v} else {})
              && |Found(s, visited + {v}, lister, now)| == |Found(s, visited, lister, now)| + (if stale then 1 else 0)
              && v !in Found(s, visited, lister, now)
    {
      assert v !in Found(s, visited, lister, now);
      var stale := Stale(s, v, lister(s.attachments[v].nodeId), gracePeriod, now);
      assert Found(s, visited + {v}, lister, now) == Found(s, visited, lister, now) + (if stale then {v} else {});
    }

    static lemma MoveOne(visited: set<VolumeId>, todo: set<VolumeId>, v: VolumeId)
      requires visited !! todo && v in todo
      ensures visited + {v} !! todo - {v} && (visited + {v}) + (todo - {v}) == visited + todo
    {}

    /** One turn of the loop, after the volumes in `visited`: `s` are the tables the pass started from. */
    method Visit(v: VolumeId, lister: NodeId -> NodeAnswer, now: Time, ghost s: Tables, ghost visited: set<VolumeId>)
      returns (cleared: bool)
      requires manager.Valid() && v in manager.attachments && v in s.attachments && v !in visited
      requires manager.Contents() == Clear(s, Found(s, visited, lister, now), now)
      modifies manager
      ensures manager.Valid()
      ensures old(manager.attachments.Keys) - {v} <= manager.attachments.Keys
      ensures manager.Contents() == Clear(s, Found(s, visited + {v}, lister, now), now)
      ensures |Found(s, visited + {v}, lister, now)| == |Found(s, visited, lister, now)| + if cleared then 1 else 0
    {
      var state := manager.attachments[v];
      FoundOneMore(s, visited, v, lister, now);
      ClearOneMore(s, Found(s, visited, lister, now), v, now);
      assert state.Value() == manager.Contents().attachments[v] == s.attachments[v];
      if lister(state.nodeId) != Gone {
        return false;
      }
      var recent := manager.IsWithinGracePeriod(v, gracePeriod, now);
      if recent {
        return false;
      }
      manager.UntrackAttachment(v, now);
      cleared := true;
    }

    /**
     * The loop visits the volumes of a snapshot in any order and may stop at any turn if the context
     * can be cancelled. Whatever the order, the stale volumes among the visited ones are cleared.
     */
    method Reconcile(lister: NodeId -> NodeAnswer, cancellable: bool, now: Time)
      returns (clearedCount: nat, ghost visited: set<VolumeId>)
      requires manager.Valid()
      modifies manager
      ensures manager.Valid()
      ensures visited <= old(manager.attachments.Keys)
      ensures !cancellable ==> visited == old(manager.attachments.Keys)
      ensures var s := old(manager.Contents());
              manager.Contents() == Clear(s, StaleAmong(s, visited, lister, gracePeriod, now), now)
      ensures clearedCount == |StaleAmong(old(manager.Contents()), visited, lister, gracePeriod, now)|
    {
      var todo := manager.attachments.Keys;
      ghost var s := manager.Contents();
      clearedCount, visited := 0, {};
      assert Found(s, {}, lister, now) == {} && Clear(s, {}, now) == s;
      while todo != {}
        invariant manager.Valid()
        invariant visited !! todo && visited + todo == s.attachments.Keys
        invariant clearedCount == |Found(s, visited, lister, now)|
        invariant manager.Contents() == Clear(s, Found(s, visited, lister, now), now)
        invariant todo <= manager.attachments.Keys
        decreases todo
      {
        var v :| v in todo;
        var cancelled: bool := *;
        if cancellable && cancelled {
          return;
        }
        var cleared := Visit(v, lister, now, s, visited);
        MoveOne(visited, todo, v);
        todo, visited := todo - {v}, visited + {v};
        clearedCount := clearedCount + if cleared then 1 else 0;
      }
    }
  }
}
