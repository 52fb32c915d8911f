/**
  Recreate an instance's container onto a new spec, or roll back to the old one
  (internal/operations/cluster_recreate.go over internal/docker/client.go).
*/
module ClusterRecreate {
  import opened Basics
  import opened Deployment

  /** `Refused` is an error that wraps docker.ErrPreflight. */
  datatype Rebuild = Built(id: ContainerId) | Refused | Failed

  /** What the caller of applyClusterChange can tell apart. */
  datatype Err = NoErr | Invalid | Other

  /** At every new crash point only the container of `n` differs from `s0`. */
  ghost predicate OnlyContainerAlong(seen0: set<State>, seen: set<State>, n: Name, s0: State)
  {
    seen0 <= seen && forall s | s in seen && s !in seen0 :: OnlyContainer(n, s0, s) && Wf(s)
  }

  predicate SameBuild(c: Container, d: Container)
  {
    c.owner == d.owner && c.image == d.image && c.shape == d.shape && c.accepted == d.accepted
  }

  /** A container that a failing create made all the same: nobody knows its id, and it was never started. */
  predicate Stray(s: State, id: ContainerId, s0: State)
  {
    id in s.containers && id >= s0.nextId && s.containers[id].state == Down && !s.containers[id].accepted
  }

  /** This container was already there, at most stopped since. */
  predicate Remnant(s: State, n: Name, id: ContainerId, s0: State)
  {
    && id in s.containers && Owns(s0, n, id) && SameBuild(s.containers[id], s0.containers[id])
    && (s.containers[id].state == Down || s.containers[id].state == s0.containers[id].state)
  }

  /** Every container of `n` in `s` was already there in `s0`. */
  ghost predicate Remains(s: State, n: Name, s0: State)
  {
    forall id | id in s.containers && s.containers[id].owner == n :: Remnant(s, n, id, s0)
  }

  /** ... or is a stray. */
  ghost predicate Leftovers(s: State, n: Name, s0: State)
  {
    forall id | id in s.containers && s.containers[id].owner == n :: Remnant(s, n, id, s0) || Stray(s, id, s0)
  }

  /** `id` is the instance's only container and was built from `spec`. */
  ghost predicate IsBuild(s: State, n: Name, id: ContainerId, image: ImageId, shape: Shape)
  {
    && Owns(s, n, id)
    && s.containers[id].image == image && s.containers[id].shape == shape
    && forall other | other in s.containers && s.containers[other].owner == n :: other == id
  }

  /** The instance's only container runs this build and has answered a readiness probe. */
  ghost predicate IsReady(s: State, n: Name, id: ContainerId, image: ImageId, shape: Shape)
  {
    IsBuild(s, n, id, image, shape) && s.containers[id].state == Up && s.containers[id].accepted
  }

  lemma OwnStaysOwn(n: Name, s0: State, s: State, id: ContainerId)
    requires SameElsewhere(n, s0, s) && IdIsOwn(s0, n, id)
    ensures IdIsOwn(s, n, id)
  {
    assert id in Foreign(s, n) <==> id in Foreign(s0, n);
  }

  function Cleared(s: State, ref: Ref): State
  {
    s.(containers := Without(s.containers, ref))
  }

  /** This container was removed from a state in which it was not running. */
  ghost predicate RemovedStopped(seen: set<State>, id: ContainerId)
  {
    exists p :: p in seen && id in p.containers && p.containers[id].state != Up && Cleared(p, ById(id)) in seen
  }

  /** Removing the instance's own container, by id or by name. */
  method RemoveOwn(w: World, n: Name, ref: Ref) returns (ok: bool)
    requires w.Valid() && (ref == ByName(n) || (ref.ById? && IdIsOwn(w.st, n, ref.id)))
    modifies w`st, w`seen, w`hostFaults
    ensures w.Valid() && w.seen == old(w.seen) + {w.st}
    ensures OnlyContainer(n, old(w.st), w.st) && Remains(w.st, n, old(w.st))
    ensures ok && ref == ByName(n) ==> !HasContainer(w.st, n)
    ensures ok && ref.ById? ==> ref.id !in w.st.containers
    ensures ok ==> w.st == Cleared(old(w.st), ref)
    ensures ref.ById? && ref.id !in old(w.st).containers ==> w.st == old(w.st)
    ensures w.hostFaults == old(w.hostFaults) + (if ok then 0 else 1)
  {
    ok := w.RemoveContainer(ref);
    assert ref.ById? && ref.id !in old(w.st).containers ==> w.st.containers == old(w.st).containers;
    assert Foreign(w.st, n) == Foreign(old(w.st), n);
  }

  /** Starting or stopping the instance's own container. */
  method MoveOwn(w: World, n: Name, id: ContainerId, state: ContainerState) returns (ok: bool)
    requires w.Valid() && IdIsOwn(w.st, n, id)
    modifies w`st, w`seen, w`hostFaults
    ensures w.Valid() && w.seen == old(w.seen) + {w.st}
    ensures OnlyContainer(n, old(w.st), w.st) && IdIsOwn(w.st, n, id)
    ensures state == Down ==> Remains(w.st, n, old(w.st))
    ensures forall image, shape | IsBuild(old(w.st), n, id, image, shape) :: IsBuild(w.st, n, id, image, shape)
    ensures ok ==> id in w.st.containers && w.st.containers[id].state == state
    ensures w.hostFaults == old(w.hostFaults) + (if ok || id !in old(w.st).containers then 0 else 1)
  {
    if id in w.st.containers { MovedKeeps(w.st, id, state, false); }
    ok := w.Transition(id, state);
  }

  /** Waiting for the instance's own server. */
  method ProbeOwn(w: World, n: Name, id: ContainerId) returns (ok: bool)
    requires w.Valid() && IdIsOwn(w.st, n, id)
    modifies w`st, w`seen, w`hostFaults
    ensures w.Valid() && w.seen == old(w.seen) + {w.st}
    ensures OnlyContainer(n, old(w.st), w.st) && IdIsOwn(w.st, n, id)
    ensures forall image, shape | IsBuild(old(w.st), n, id, image, shape) :: IsBuild(w.st, n, id, image, shape)
    ensures ok ==>
      id in w.st.containers && w.st.containers[id].state == Up && w.st.containers[id].accepted
    ensures w.hostFaults >= old(w.hostFaults) && (ok ==> w.hostFaults == old(w.hostFaults))
    ensures !ok && id in old(w.st).containers && old(w.st).containers[id].state == Up ==>
      w.hostFaults > old(w.hostFaults)
  {
    if id in w.st.containers { MovedKeeps(w.st, id, Up, true); }
    ok := w.Probe(id);
  }

  method CreateOwn(w: World, n: Name, spec: Spec) returns (id: ContainerId)
    requires w.Valid()
    modifies w`st, w`seen, w`hostFaults
    ensures w.Valid() && w.seen == old(w.seen) + {w.st}
    ensures OnlyContainer(n, old(w.st), w.st)
    ensures id == NoId ==> Leftovers(w.st, n, old(w.st)) && (w.st == old(w.st) || w.hostFaults > old(w.hostFaults))
    ensures id != NoId ==>
      && !HasContainer(old(w.st), n)
      && Resolve(old(w.st), spec.image).Some?
      && IsBuild(w.st, n, id, Resolve(old(w.st), spec.image).value, spec.shape)
      && id >= old(w.st).nextId
    ensures HasContainer(old(w.st), n) ==> w.st == old(w.st)
    ensures w.hostFaults >= old(w.hostFaults)
    ensures id != NoId ==> w.hostFaults == old(w.hostFaults)
    ensures id == NoId && w.hostFaults == old(w.hostFaults) ==>
      HasContainer(old(w.st), n) || Resolve(old(w.st), spec.image).None?
  {
    id := w.CreateNamed(n, spec);
    assert Foreign(w.st, n) == Foreign(old(w.st), n);
  }

  /** The destructive half: the old container goes by id, then whatever holds its name. */
  method ClearOld(w: World, n: Name, oldId: ContainerId) returns (ok: bool)
    requires w.Valid() && IdIsOwn(w.st, n, oldId)
    modifies w`st, w`seen, w`hostFaults, w`storeFaults
    ensures w.Valid() && w.storeFaults == old(w.storeFaults)
    ensures OnlyContainerAlong(old(w.seen), w.seen, n, old(w.st)) && OnlyContainer(n, old(w.st), w.st)
    ensures Remains(w.st, n, old(w.st))
    ensures ok ==> !HasContainer(w.st, n)
    ensures w.hostFaults >= old(w.hostFaults) && (!ok ==> w.hostFaults > old(w.hostFaults))
    // A running server is stopped first, if its state could be read.
    ensures w.hostFaults == old(w.hostFaults) && oldId in old(w.st).containers ==> RemovedStopped(w.seen, oldId)
  {
    hide Wf, Foreign, Elsewhere, Without;
    KnownIds(w.st, n, oldId);
    if oldId != NoId {
      var found, unknown := w.Inspect(ById(oldId));
      if !unknown && found.Some? && w.st.containers[found.value].state == Up {
        var stopped := MoveOwn(w, n, oldId, Down);
        if !stopped { return false; }
      }
      var removed := RemoveOwn(w, n, ById(oldId));
      if !removed { return false; }
    }
    // A crash between create and the id write leaves a container the row does not know.
    var removed := RemoveOwn(w, n, ByName(n));
    if !removed { return false; }
    return true;
  }

  /** What a container can be rebuilt from: an image and a volume that are there, and a group that fits. */
  predicate Rebuildable(host: Host, s: State, n: Name, spec: Spec)
  {
    Resolve(s, spec.image).Some? && n in s.volumes && spec.shape !in host.misfits
  }

  method RecreateContainer(w: World, n: Name, spec: Spec, oldId: ContainerId) returns (r: Rebuild)
    requires w.Valid() && IdIsOwn(w.st, n, oldId)
    modifies w`st, w`seen, w`hostFaults, w`storeFaults
    ensures w.Valid() && w.storeFaults == old(w.storeFaults)
    ensures OnlyContainerAlong(old(w.seen), w.seen, n, old(w.st)) && OnlyContainer(n, old(w.st), w.st)
    ensures r.Refused? ==> w.st == old(w.st) && w.seen == old(w.seen)
    ensures r.Failed? ==> Leftovers(w.st, n, old(w.st))
    ensures r.Built? ==>
      && r.id != NoId && Resolve(old(w.st), spec.image).Some?
      && IsBuild(w.st, n, r.id, Resolve(old(w.st), spec.image).value, spec.shape)
      && r.id >= old(w.st).nextId
    // Nothing is touched unless there is what it takes; if there is, only a fault prevents a rebuild.
    ensures !r.Refused? ==> Rebuildable(w.host, old(w.st), n, spec)
    ensures Rebuildable(w.host, old(w.st), n, spec) && w.hostFaults == old(w.hostFaults) ==> r.Built?
    ensures w.hostFaults >= old(w.hostFaults)
  {
    var imageExists := w.CheckImageExists(spec.image);
    if !imageExists { return Refused; }
    if spec.shape in w.host.misfits { return Refused; }
    var present, failed := w.InspectVolume(n);
    if !present || failed { return Refused; }

    var cleared := ClearOld(w, n, oldId);
    if !cleared { return Failed; }
    var id := CreateOwn(w, n, spec);
    if id == NoId { return Failed; }
    return Built(id);
  }

  /** `id` is set whenever a container was built, even if it then failed to come up. */
  method RecreateStartReady(w: World, n: Name, spec: Spec, oldId: ContainerId)
    returns (id: ContainerId, r: Rebuild)
    requires w.Valid() && IdIsOwn(w.st, n, oldId)
    modifies w`st, w`seen, w`hostFaults, w`storeFaults
    ensures w.Valid() && w.storeFaults == old(w.storeFaults)
    ensures OnlyContainerAlong(old(w.seen), w.seen, n, old(w.st)) && OnlyContainer(n, old(w.st), w.st)
    ensures id < w.st.nextId && IdIsOwn(w.st, n, id)
    ensures r.Refused? ==> id == NoId && w.st == old(w.st) && w.seen == old(w.seen)
    ensures r.Failed? && id == NoId ==> Leftovers(w.st, n, old(w.st))
    ensures id != NoId ==>
      && Resolve(old(w.st), spec.image).Some?
      && IsBuild(w.st, n, id, Resolve(old(w.st), spec.image).value, spec.shape)
    ensures r.Built? ==>
      && r.id == id != NoId && Resolve(old(w.st), spec.image).Some?
      && IsReady(w.st, n, id, Resolve(old(w.st), spec.image).value, spec.shape)
    ensures !r.Refused? ==> Rebuildable(w.host, old(w.st), n, spec)
    ensures Rebuildable(w.host, old(w.st), n, spec) && w.hostFaults == old(w.hostFaults) ==> r.Built?
    // A container that did not come up is stopped, unless that fails as well.
    ensures r.Failed? && id != NoId && w.hostFaults <= old(w.hostFaults) + 1 ==> w.st.containers[id].state == Down
    ensures w.hostFaults >= old(w.hostFaults)
  {
    hide Wf, Foreign, Elsewhere;
    r := RecreateContainer(w, n, spec, oldId);
    id := if r.Built? then r.id else NoId;
    if r.Built? {
      var started := MoveOwn(w, n, id, Up);
      var ready := false;
      if started { ready := ProbeOwn(w, n, id); }
      if !ready {
        var _ := MoveOwn(w, n, id, Down);
        r := Failed;
      }
    }
    KnownIds(w.st, n, id);
  }

  lemma KnownIds(s: State, n: Name, id: ContainerId)
    requires Wf(s)
    ensures NoId !in s.containers && NoId < s.nextId && (id in s.containers ==> id < s.nextId)
  {
  }

  ghost function ImageInUse(cs: map<ContainerId, Container>, n: Name, fallback: Option<ImageId>): Option<ImageId>
  {
    if exists id :: id in cs && cs[id].owner == n then
      var id :| id in cs && cs[id].owner == n; Some(cs[id].image)
    else
      fallback
  }

  /** The image a rollback must restore: the one the instance's container really runs. */
  ghost function RollbackImage(s: State, n: Name, recorded: ImageRef): Option<ImageId>
  {
    ImageInUse(s.containers, n, Resolve(s, recorded))
  }

  /** Only the instance's container, and its row's status and container id, may differ. */
  ghost predicate OnlyPointers(n: Name, s0: State, s: State)
  {
    && SameElsewhere(n, s0, s)
    && s.volumes == s0.volumes && s.archives == s0.archives
    && n in s0.rows && n in s.rows
    && s.rows[n].image == s0.rows[n].image && s.rows[n].shape == s0.rows[n].shape
  }

  lemma OnlyPointersComposes(n: Name, s0: State, s1: State)
    requires OnlyPointers(n, s0, s1)
    ensures forall s | OnlyPointers(n, s1, s) :: OnlyPointers(n, s0, s)
  {
    SameElsewhereComposes(n, s0, s1);
  }

  ghost predicate OnlyPointersAlong(seen0: set<State>, seen: set<State>, n: Name, s0: State)
  {
    seen0 <= seen && forall s | s in seen && s !in seen0 :: OnlyPointers(n, s0, s) && Wf(s)
  }

  /**
    The container that survives a double failure is the one the row names, or the very
    container that was there before, which the row may never have known, or one that a
    failing create left unstarted: the last two are reached by name.
  */
  ghost predicate SurvivorReachable(s: State, n: Name, s0: State)
    requires n in s.rows && n in s0.rows
  {
    forall id | id in s.containers && s.containers[id].owner == n ::
      id == s.rows[n].cid
      || (s.rows[n].cid == s0.rows[n].cid && Remnant(s, n, id, s0))
      || Stray(s, id, s0)
  }

  /** The image the instance's container runs, if there is one, is still there to go back to. */
  ghost predicate Revertible(s: State, n: Name)
  {
    forall id | id in s.containers && s.containers[id].owner == n :: s.containers[id].image in s.images
  }

  /** Without faults, exactly the states in which a change to this image goes through. */
  ghost predicate Changeable(host: Host, s: State, n: Name, spec: Spec)
  {
    Rebuildable(host, s, n, spec) && Revertible(s, n)
  }

  /** The previous spec can be built again: its image is known, and its group still fits. */
  ghost predicate CanGoBack(host: Host, s: State, n: Name, prev: Spec)
  {
    RollbackImage(s, n, prev.image).Some? && prev.shape !in host.misfits
  }

  /** The spec the row records. */
  function Current(s: State, n: Name): Spec
    requires n in s.rows
  {
    Spec(s.rows[n].image, s.rows[n].shape)
  }

  /** Resolve the image the old container used, by id and then by name. */
  method PinRollbackImage(w: World, n: Name, prev: Spec, oldId: ContainerId) returns (pinned: Spec, ok: bool)
    requires w.Valid() && IdIsOwn(w.st, n, oldId)
    modifies w`hostFaults
    ensures pinned.shape == prev.shape
    ensures ok ==> Resolve(w.st, pinned.image) == RollbackImage(w.st, n, prev.image)
    ensures ok ==> Revertible(w.st, n)
    ensures !ok ==> !Revertible(w.st, n) || w.hostFaults > old(w.hostFaults)
    ensures w.hostFaults >= old(w.hostFaults)
  {
    pinned, ok := prev, true;
    var refs := [ById(oldId), ByName(n)];
    for i := 0 to 2
      invariant pinned == prev && ok
      invariant i == 2 ==> !HasContainer(w.st, n)
      invariant w.hostFaults >= old(w.hostFaults)
    {
      if refs[i] != ById(NoId) {
        var found, failed := w.Inspect(refs[i]);
        if failed { return prev, false; }
        if found.Some? {
          var image := w.st.containers[found.value].image;
          var present := w.CheckImageExists(Pinned(image));
          assert Owns(w.st, n, found.value);
          return Spec(Pinned(image), prev.shape), present;
        }
      }
    }
  }

  /** One row write: it lands, or it fails and nothing changes. */
  method RecordRow(w: World, n: Name, row: Row) returns (ok: bool)
    requires w.Valid() && n in w.st.rows && row.cid < w.st.nextId && IdIsOwn(w.st, n, row.cid)
    modifies w`st, w`seen, w`storeFaults
    ensures w.Valid() && w.seen == old(w.seen) + {w.st}
    ensures SameElsewhere(n, old(w.st), w.st) && n in w.st.rows
    ensures w.st == if ok then WithRow(old(w.st), n, row) else old(w.st)
    ensures w.storeFaults == old(w.storeFaults) + (if ok then 0 else 1)
  {
    ok := w.WriteRow(n, row);
  }

  method RecordStatus(w: World, n: Name, status: Status) returns (ok: bool)
    requires w.Valid() && n in w.st.rows
    modifies w`st, w`seen, w`storeFaults
    ensures w.Valid() && w.seen == old(w.seen) + {w.st}
    ensures OnlyPointers(n, old(w.st), w.st) && w.st.nextId == old(w.st).nextId
    ensures w.st == if ok then WithRow(old(w.st), n, old(w.st).rows[n].(status := status)) else old(w.st)
    ensures w.storeFaults == old(w.storeFaults) + (if ok then 0 else 1)
  {
    ok := RecordRow(w, n, w.st.rows[n].(status := status));
  }

  method RecordId(w: World, n: Name, id: ContainerId) returns (ok: bool)
    requires w.Valid() && n in w.st.rows && id < w.st.nextId && IdIsOwn(w.st, n, id)
    modifies w`st, w`seen, w`storeFaults
    ensures w.Valid() && w.seen == old(w.seen) + {w.st}
    ensures OnlyPointers(n, old(w.st), w.st) && w.st.nextId == old(w.st).nextId
    ensures w.st == if ok then WithRow(old(w.st), n, old(w.st).rows[n].(cid := id)) else old(w.st)
    ensures w.storeFaults == old(w.storeFaults) + (if ok then 0 else 1)
  {
    ok := RecordRow(w, n, w.st.rows[n].(cid := id));
  }

  /** Recreate the previous spec over whatever the failed attempt left behind. */
  method RollBack(w: World, n: Name, prev: Spec, id: ContainerId) returns (ok: bool)
    requires w.Valid() && n in w.st.rows && IdIsOwn(w.st, n, id) && id < w.st.nextId
    requires id != NoId ==> forall other | other in w.st.containers && w.st.containers[other].owner == n :: other == id
    modifies w`st, w`seen, w`hostFaults, w`storeFaults
    ensures w.hostFaults >= old(w.hostFaults)
    ensures w.Valid() && OnlyPointersAlong(old(w.seen), w.seen, n, old(w.st)) && OnlyPointers(n, old(w.st), w.st)
    ensures w.storeFaults >= old(w.storeFaults)
    ensures Rebuildable(w.host, old(w.st), n, prev) && w.hostFaults == old(w.hostFaults) ==> ok
    ensures ok ==>
      && Resolve(old(w.st), prev.image).Some?
      && (exists rb :: IsReady(w.st, n, rb, Resolve(old(w.st), prev.image).value, prev.shape))
      && (w.storeFaults == old(w.storeFaults) ==>
            && IsReady(w.st, n, w.st.rows[n].cid, Resolve(old(w.st), prev.image).value, prev.shape)
            && w.st.rows[n].status == Running)
    ensures !ok && w.storeFaults == old(w.storeFaults) ==>
      && w.st.rows[n].status == Error
      && forall x | x in w.st.containers && w.st.containers[x].owner == n ::
           || x == w.st.rows[n].cid
           || (id == NoId && w.st.rows[n].cid == old(w.st).rows[n].cid && Remnant(w.st, n, x, old(w.st)))
           || Stray(w.st, x, old(w.st))
  {
    hide Wf, Foreign, Elsewhere;
    var rbId, rb := RecreateStartReady(w, n, prev, id);
    ghost var image := Resolve(old(w.st), prev.image);
    ok := rb.Built?;
    if !ok {
      var _ := RecordStatus(w, n, Error);
      // Whichever container actually exists; naming one that is gone is harmless.
      var orphan := if rbId != NoId then rbId else id;
      if orphan != NoId {
        OwnStaysOwn(n, old(w.st), w.st, id);
        var _ := RecordId(w, n, orphan);
      }
      return;
    }
    var recorded := RecordId(w, n, rbId);
    var _ := RecordStatus(w, n, if recorded then Running else Error);
    assert IsReady(w.st, n, rbId, image.value, prev.shape);
  }

  /**
    The outcomes of applying `next` over `prev`, from `s0` to `s`; `clean` says that every
    catalogue write in between landed.
  */
  ghost predicate Outcomes(n: Name, s0: State, s: State, next: Spec, prev: Spec, rolledBack: bool, err: Err,
      clean: bool)
    requires n in s0.rows && n in s.rows
  {
    match err
    case NoErr =>
      // The new spec is up, and the row names its container.
      && !rolledBack && Resolve(s0, next.image).Some?
      && IsReady(s, n, s.rows[n].cid, Resolve(s0, next.image).value, next.shape)
    case Invalid => !rolledBack
    case Other =>
      if rolledBack then
        // The previous shape is back, on the image the old container really used.
        clean ==>
          && RollbackImage(s0, n, prev.image).Some? && s.rows[n].status == Running
          && IsReady(s, n, s.rows[n].cid, RollbackImage(s0, n, prev.image).value, prev.shape)
      else
        // Both attempts failed, and the row says so.
        clean ==> s.rows[n].status == Error && SurvivorReachable(s, n, s0)
  }

  lemma OutcomesUnderStatus(n: Name, s0: State, s1: State, s: State, next: Spec, prev: Spec, rolledBack: bool, err: Err,
      clean1: bool, clean: bool)
    requires clean ==> clean1
    requires n in s0.rows && n in s1.rows && n in s.rows && s1.rows[n].cid == s0.rows[n].cid
    requires s1.containers == s0.containers && s1.tags == s0.tags && s1.images == s0.images && s1.nextId == s0.nextId
    requires Outcomes(n, s1, s, next, prev, rolledBack, err, clean1)
    ensures Outcomes(n, s0, s, next, prev, rolledBack, err, clean)
  {
  }

  lemma RefusalIsOutcome(n: Name, s0: State, s: State, next: Spec, prev: Spec, clean: bool)
    requires n in s0.rows && n in s.rows
    ensures Outcomes(n, s0, s, next, prev, false, Invalid, clean)
  {
  }

  lemma RowIdIsOwn(s: State, n: Name)
    requires Wf(s) && n in s.rows
    ensures IdIsOwn(s, n, s.rows[n].cid)
  {
  }

  method ApplyClusterChange(w: World, n: Name, next: Spec, prev: Spec, oldId: ContainerId)
    returns (rolledBack: bool, err: Err)
    requires w.Valid() && n in w.st.rows && w.st.rows[n].cid == oldId
    modifies w`st, w`seen, w`hostFaults, w`storeFaults
    ensures w.hostFaults >= old(w.hostFaults)
    ensures w.Valid() && OnlyPointersAlong(old(w.seen), w.seen, n, old(w.st)) && OnlyPointers(n, old(w.st), w.st)
    ensures w.storeFaults >= old(w.storeFaults)
    ensures n in w.st.rows
    ensures Outcomes(n, old(w.st), w.st, next, prev, rolledBack, err, w.storeFaults == old(w.storeFaults))
    ensures err.NoErr? ==> w.st.rows[n].status == old(w.st).rows[n].status
    // Without faults a change goes through exactly if it can; one fault alone never ends in error.
    ensures w.hostFaults == old(w.hostFaults) && w.storeFaults == old(w.storeFaults) ==>
      err == if Changeable(w.host, old(w.st), n, next) then NoErr else Invalid
    ensures !err.Invalid? ==> Changeable(w.host, old(w.st), n, next)
    ensures err.Other? && !rolledBack && CanGoBack(w.host, old(w.st), n, prev) ==>
      w.hostFaults >= old(w.hostFaults) + 2 || w.storeFaults > old(w.storeFaults)
    // A preflight refusal changes nothing.
    ensures err.Invalid? ==> !rolledBack && w.st == old(w.st) && w.seen == old(w.seen)
    // A container was rolled back to even if the catalogue could not be told.
    ensures rolledBack ==>
      && RollbackImage(old(w.st), n, prev.image).Some?
      && exists id :: IsReady(w.st, n, id, RollbackImage(old(w.st), n, prev.image).value, prev.shape)
  {
    hide Wf, Foreign;
    RowIdIsOwn(w.st, n);
    var pinned, pinOk := PinRollbackImage(w, n, prev, oldId);
    rolledBack, err := false, Invalid;
    if pinOk {
      var id, r := RecreateStartReady(w, n, next, oldId);
      if r.Built? {
        var recorded := RecordId(w, n, id);
        err := if recorded then NoErr else Other;
      } else if r.Failed? {
        rolledBack := RollBack(w, n, pinned, id);
        err := Other;
      }
    }
  }

  /** The protocol under a transient status. */
  method MarkAndApply(w: World, n: Name, transient: Status, next: Spec, prev: Spec) returns (rolledBack: bool, err: Err)
    requires w.Valid() && n in w.st.rows
    modifies w`st, w`seen, w`hostFaults, w`storeFaults
    ensures w.hostFaults >= old(w.hostFaults)
    ensures w.Valid() && OnlyPointersAlong(old(w.seen), w.seen, n, old(w.st)) && OnlyPointers(n, old(w.st), w.st)
    ensures w.storeFaults >= old(w.storeFaults)
    ensures n in w.st.rows
    ensures Outcomes(n, old(w.st), w.st, next, prev, rolledBack, err, w.storeFaults == old(w.storeFaults))
    ensures err.NoErr? ==> w.st.rows[n].status == transient || w.st.rows[n].status == old(w.st).rows[n].status
    ensures w.hostFaults == old(w.hostFaults) && w.storeFaults == old(w.storeFaults) ==>
      err == if Changeable(w.host, old(w.st), n, next) then NoErr else Invalid
    ensures !err.Invalid? ==> Changeable(w.host, old(w.st), n, next)
    ensures err.Other? && !rolledBack && CanGoBack(w.host, old(w.st), n, prev) ==>
      w.hostFaults >= old(w.hostFaults) + 2 || w.storeFaults > old(w.storeFaults)
    ensures err.Invalid? ==> !rolledBack && w.st.containers == old(w.st).containers
    ensures err.Invalid? && w.storeFaults == old(w.storeFaults) ==>
      w.st == WithRow(old(w.st), n, old(w.st).rows[n].(status := transient))
  {
    hide Wf, OnlyPointers, Outcomes, Elsewhere;
    var row := w.st.rows[n];
    var _ := RecordStatus(w, n, transient);
    ghost var s1, faults1 := w.st, w.storeFaults;
    OnlyPointersComposes(n, old(w.st), w.st);
    rolledBack, err := ApplyClusterChange(w, n, next, prev, row.cid);
    OutcomesUnderStatus(n, old(w.st), s1, w.st, next, prev, rolledBack, err, w.storeFaults == faults1,
                        w.storeFaults == old(w.storeFaults));
  }

  lemma OnlyPointersNext(seen0: set<State>, seen1: set<State>, n: Name, s0: State, s: State)
    requires OnlyPointersAlong(seen0, seen1, n, s0) && OnlyPointers(n, s0, s) && Wf(s)
    ensures OnlyPointersAlong(seen0, seen1 + {s}, n, s0)
  {
  }

  /**
    The frame both callers put around the protocol: a transient status before it, and the
    previous status back after a preflight refusal unless that status was "error".
  */
  method ApplyMarked(w: World, n: Name, transient: Status, next: Spec) returns (rolledBack: bool, err: Err)
    requires w.Valid() && n in w.st.rows
    modifies w`st, w`seen, w`hostFaults, w`storeFaults
    ensures w.hostFaults >= old(w.hostFaults)
    ensures w.Valid() && OnlyPointersAlong(old(w.seen), w.seen, n, old(w.st)) && OnlyPointers(n, old(w.st), w.st)
    ensures w.storeFaults >= old(w.storeFaults)
    ensures n in w.st.rows
    ensures Outcomes(n, old(w.st), w.st, next, Current(old(w.st), n), rolledBack, err,
        w.storeFaults == old(w.storeFaults))
    ensures err.NoErr? ==> w.st.rows[n].status == transient || w.st.rows[n].status == old(w.st).rows[n].status
    ensures w.hostFaults == old(w.hostFaults) && w.storeFaults == old(w.storeFaults) ==>
      err == if Changeable(w.host, old(w.st), n, next) then NoErr else Invalid
    ensures !err.Invalid? ==> Changeable(w.host, old(w.st), n, next)
    ensures err.Other? && !rolledBack && CanGoBack(w.host, old(w.st), n, Current(old(w.st), n)) ==>
      w.hostFaults >= old(w.hostFaults) + 2 || w.storeFaults > old(w.storeFaults)
    ensures err.Invalid? && w.storeFaults == old(w.storeFaults) ==>
      w.st == if old(w.st).rows[n].status == Error
              then WithRow(old(w.st), n, old(w.st).rows[n].(status := transient))
              else old(w.st)
  {
    hide Wf, OnlyPointers, OnlyPointersAlong, Outcomes, Elsewhere;
    var row := w.st.rows[n];
    rolledBack, err := MarkAndApply(w, n, transient, next, Current(w.st, n));
    if err.Invalid? && row.status != Error {
      OnlyPointersComposes(n, old(w.st), w.st);
      ghost var seen1 := w.seen;
      var _ := RecordStatus(w, n, row.status);
      OnlyPointersNext(old(w.seen), seen1, n, old(w.st), w.st);
      assert w.storeFaults == old(w.storeFaults) ==> w.st.rows == old(w.st).rows;
      RefusalIsOutcome(n, old(w.st), w.st, next, Current(old(w.st), n), w.storeFaults == old(w.storeFaults));
    }
  }
}
