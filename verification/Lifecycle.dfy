/**
  Creating and destroying an instance (internal/operations/rdbms_create.go,
  rdbms_delete.go, and CreateContainer of internal/docker/client.go).
*/
module Lifecycle {
  import opened Deployment
  import opened ClusterRecreate
  import opened InstanceSteps

  datatype CreateOutcome =
    | NameTaken | Rejected | VolumeExists | NotCreated   // refused, or failed before the container existed
    | TakenDown                                          // failed later and was torn down again
    | Unrecorded                                         // up, but "running" could not be written
    | Created

  /** Nothing in Docker or the catalogue carries this name. */
  ghost predicate FreeName(s: State, n: Name)
  {
    n !in s.rows && n !in s.volumes && !HasContainer(s, n)
  }

  /** The only untidy state a failed create can reach is the last one, its row gone too early. */
  ghost predicate TidyButLast(w: World, n: Name, s0: State, seen0: set<State>, leftBehind: bool)
    reads w`st, w`seen
  {
    && w.Valid() && SameElsewhere(n, s0, w.st) && seen0 <= w.seen
    && (forall s | s in w.seen && s !in seen0 ::
          SameElsewhere(n, s0, s) && Wf(s) && (Tidy(s, n) || (leftBehind && s == w.st)))
    && (leftBehind && n !in w.st.rows <==> !Tidy(w.st, n))
  }

  /** The instance's volume is the one it had, or one made since. */
  predicate SameOrNewer(n: Name, s0: State, s: State)
  {
    n in s.volumes ==> (n in s0.volumes && s.volumes[n].gen == s0.volumes[n].gen) || s.volumes[n].gen >= s0.nextId
  }

  /** What keeps Docker from making this instance when no call fails; `Created` if nothing does. */
  ghost function Obstacle(host: Host, s: State, n: Name, spec: Spec): CreateOutcome
  {
    if Resolve(s, spec.image).None? || spec.shape in host.misfits then Rejected
    else if n in s.volumes then VolumeExists
    else if HasContainer(s, n) then NotCreated
    else Created
  }

  /** What becomes of a create when no call fails. */
  ghost function Verdict(host: Host, s: State, n: Name, image: ImageRef, shape: Shape): CreateOutcome
  {
    if n in s.rows then NameTaken
    else if PortTaken(s, shape.port) || shape.group !in host.groups then Rejected
    else Obstacle(host, s, n, Spec(image, shape))
  }

  /**
    Docker's half of create: volume, then container, undoing the volume on failure.
    `leaked`: a creation failed although it took effect, or the undoing failed.
  */
  method CreateContainer(w: World, n: Name, spec: Spec, ghost s0: State, ghost seen0: set<State>)
    returns (id: ContainerId, refusal: CreateOutcome, ghost leaked: bool)
    requires On(w, n, s0, seen0)
    modifies w`st, w`seen, w`hostFaults, w`storeFaults
    ensures On(w, n, s0, seen0) && w.storeFaults == old(w.storeFaults) && w.hostFaults >= old(w.hostFaults)
    ensures w.st.rows == old(w.st).rows && w.st.archives == old(w.st).archives
    ensures old(w.seen) <= w.seen && SameOrNewer(n, old(w.st), w.st)
    ensures forall s | s in w.seen && s !in old(w.seen) ::
      s.rows == old(w.st).rows && s.archives == old(w.st).archives && SameOrNewer(n, old(w.st), s)
    ensures id != NoId ==>
      && !HasContainer(old(w.st), n) && n !in old(w.st).volumes && n in w.st.volumes
      && w.st.volumes[n].data == map[] && w.st.volumes[n].gen >= old(w.st).nextId
      && Resolve(old(w.st), spec.image).Some? && id < w.st.nextId
      && IsBuild(w.st, n, id, Resolve(old(w.st), spec.image).value, spec.shape)
    ensures id == NoId && !leaked ==> w.st.containers == old(w.st).containers && w.st.volumes == old(w.st).volumes
    ensures leaked ==> id == NoId && w.hostFaults > old(w.hostFaults) && refusal.NotCreated?
    ensures n in old(w.st).volumes ==> id == NoId && !leaked
    ensures HasContainer(old(w.st), n) ==> w.st.containers == old(w.st).containers
    ensures refusal.VolumeExists? ==> n in old(w.st).volumes || w.hostFaults > old(w.hostFaults)
    ensures refusal in {Rejected, VolumeExists, NotCreated}
    ensures w.hostFaults == old(w.hostFaults) ==>
      if Obstacle(w.host, old(w.st), n, spec) == Created then id != NoId
      else id == NoId && refusal == Obstacle(w.host, old(w.st), n, spec)
    ensures id != NoId ==> spec.shape !in w.host.misfits && w.hostFaults == old(w.hostFaults)
  {
    hide On, SameElsewhere;
    id, refusal, leaked := NoId, Rejected, false;
    var imageExists := w.CheckImageExists(spec.image);
    if imageExists && spec.shape !in w.host.misfits {
      var present, failed := w.InspectVolume(n);
      refusal := if present || failed then VolumeExists else NotCreated;
      if !present && !failed {
        id, leaked := MakeBoth(w, n, spec, s0, seen0);
      }
    }
  }

  method MakeBoth(w: World, n: Name, spec: Spec, ghost s0: State, ghost seen0: set<State>)
    returns (id: ContainerId, ghost leaked: bool)
    requires On(w, n, s0, seen0) && n !in w.st.volumes
    modifies w`st, w`seen, w`hostFaults
    ensures On(w, n, s0, seen0) && w.hostFaults >= old(w.hostFaults)
    ensures w.st.rows == old(w.st).rows && w.st.archives == old(w.st).archives
    ensures old(w.seen) <= w.seen && SameOrNewer(n, old(w.st), w.st)
    ensures forall s | s in w.seen && s !in old(w.seen) ::
      s.rows == old(w.st).rows && s.archives == old(w.st).archives && SameOrNewer(n, old(w.st), s)
    ensures id != NoId ==>
      && !HasContainer(old(w.st), n) && n in w.st.volumes
      && w.st.volumes[n].data == map[] && w.st.volumes[n].gen >= old(w.st).nextId
      && Resolve(old(w.st), spec.image).Some? && id < w.st.nextId
      && IsBuild(w.st, n, id, Resolve(old(w.st), spec.image).value, spec.shape)
    ensures id == NoId && !leaked ==> w.st.containers == old(w.st).containers && w.st.volumes == old(w.st).volumes
    ensures leaked ==> id == NoId && w.hostFaults > old(w.hostFaults)
    ensures id != NoId ==> w.hostFaults == old(w.hostFaults)
    ensures HasContainer(old(w.st), n) ==> w.st.containers == old(w.st).containers
    ensures id == NoId && w.hostFaults == old(w.hostFaults) ==>
      HasContainer(old(w.st), n) || Resolve(old(w.st), spec.image).None?
  {
    hide On, SameElsewhere;
    ghost var volumes := w.st.volumes;
    assert volumes[n := Volume(w.st.nextId, map[])] - {n} == volumes;
    id := NoId;
    var made := MakeVolume(w, n, s0, seen0);
    leaked := !made && n in w.st.volumes;
    if made {
      ghost var before := w.st;
      id := Build(w, n, spec, s0, seen0);
      if id == NoId {
        ghost var built := w.st != before;
        var dropped := DropVolume(w, n, s0, seen0);
        leaked := built || !dropped;
      }
    }
  }

  /** The row is dropped, so whatever is left of the instance is unaccounted for. */
  method ForgetRow(w: World, n: Name, ghost s0: State, ghost seen0: set<State>) returns (ghost leftBehind: bool)
    requires On(w, n, s0, seen0)
    modifies w`st, w`seen, w`storeFaults
    ensures leftBehind == (HasContainer(old(w.st), n) || n in old(w.st).volumes)
    ensures TidyButLast(w, n, s0, seen0, leftBehind)
    ensures w.st.containers == old(w.st).containers && w.st.volumes == old(w.st).volumes
    ensures w.storeFaults == old(w.storeFaults) + (if n in w.st.rows then 1 else 0)
  {
    leftBehind := HasContainer(w.st, n) || n in w.st.volumes;
    SameElsewhereComposes(n, s0, w.st);
    var _ := w.DeleteRow(n);
  }

  /** Take a partially created instance down again; the row goes last, whatever happened. */
  method CleanupFailedCreate(w: World, n: Name, id: ContainerId, ghost s0: State, ghost seen0: set<State>)
    returns (ghost leftBehind: bool, ghost cleared: bool)
    requires On(w, n, s0, seen0) && IdIsOwn(w.st, n, id)
    requires forall other | other in w.st.containers && w.st.containers[other].owner == n :: other == id
    modifies w`st, w`seen, w`hostFaults, w`storeFaults, w`leaks
    ensures TidyButLast(w, n, s0, seen0, leftBehind)
    // Only a removal that failed can leave something behind.
    ensures w.leaks == old(w.leaks) + (if cleared then 0 else 1)
    ensures cleared ==> !leftBehind && w.hostFaults == old(w.hostFaults)
    ensures !cleared ==> w.hostFaults > old(w.hostFaults)
    ensures w.storeFaults == old(w.storeFaults) + (if n in w.st.rows then 1 else 0)
  {
    hide SameElsewhere, TidyButLast, On;
    var removed := Clear(w, n, ById(id), s0, seen0);
    assert removed ==> !HasContainer(w.st, n);
    var dropped := DropVolume(w, n, s0, seen0);
    assert removed ==> !HasContainer(w.st, n);
    cleared := removed && dropped;
    if !cleared { w.leaks := w.leaks + 1; }
    leftBehind := ForgetRow(w, n, s0, seen0);
  }

  /** The row still has its status, image and shape, and no archive has come or gone. */
  predicate SameStanding(n: Name, s0: State, s: State)
  {
    && n in s0.rows && n in s.rows && s.rows[n] == s0.rows[n].(cid := s.rows[n].cid)
    && s.archives == s0.archives
  }

  /** Nor has its volume changed. */
  predicate SameHolding(n: Name, s0: State, s: State)
  {
    SameStanding(n, s0, s) && s.volumes == s0.volumes
  }

  /** Record the container, start it, wait for it, and swap in the stored password. */
  method BringUp(w: World, n: Name, id: ContainerId, ghost s0: State, ghost seen0: set<State>) returns (ok: bool)
    requires On(w, n, s0, seen0) && Owns(w.st, n, id) && id < w.st.nextId
    requires forall other | other in w.st.containers && w.st.containers[other].owner == n :: other == id
    modifies w`st, w`seen, w`hostFaults, w`storeFaults
    ensures On(w, n, s0, seen0) && IdIsOwn(w.st, n, id)
    ensures forall other | other in w.st.containers && w.st.containers[other].owner == n :: other == id
    ensures w.hostFaults >= old(w.hostFaults) && w.storeFaults >= old(w.storeFaults)
    ensures old(w.seen) <= w.seen && SameHolding(n, old(w.st), w.st)
    ensures forall s | s in w.seen && s !in old(w.seen) :: SameHolding(n, old(w.st), s)
    ensures ok ==>
      && IsReady(w.st, n, id, old(w.st).containers[id].image, old(w.st).containers[id].shape)
      && w.st.rows[n] == old(w.st).rows[n].(cid := id)
    ensures ok <==> w.hostFaults == old(w.hostFaults) && w.storeFaults == old(w.storeFaults)
  {
    assert n in w.st.rows;
    hide On, SameElsewhere;
    var image, shape := w.st.containers[id].image, w.st.containers[id].shape;
    assert IsBuild(w.st, n, id, image, shape);
    ok := Write(w, n, w.st.rows[n].(cid := id), s0, seen0);
    if !ok { return; }
    assert IsBuild(w.st, n, id, image, shape);
    ok := Move(w, n, id, Up, s0, seen0);
    if !ok { return; }
    ok := AwaitServer(w, n, id, s0, seen0);
    if !ok { return; }
    ok := w.Attempt();                   // ALTER ROLE over SQL
  }

  /** Everything after the row is in the catalogue. */
  method CreateInserted(w: World, n: Name, image: ImageRef, shape: Shape, ghost s0: State, ghost seen0: set<State>)
    returns (r: CreateOutcome, ghost leftBehind: bool)
    requires On(w, n, s0, seen0) && w.st.rows[n] == Row(Creating, NoId, image, shape)
    modifies w`st, w`seen, w`hostFaults, w`storeFaults, w`leaks
    ensures w.hostFaults >= old(w.hostFaults) && w.storeFaults >= old(w.storeFaults)
    ensures TidyButLast(w, n, s0, seen0, leftBehind)
    ensures Leaked(old(w.leaks), w.leaks, w.hostFaults > old(w.hostFaults), r)
    ensures leftBehind && w.leaks == old(w.leaks) ==> HasContainer(old(w.st), n) || n in old(w.st).volumes
    ensures n in old(w.st).volumes ==>
      && w.st.volumes == old(w.st).volumes && !r.Created?
      && (w.storeFaults == old(w.storeFaults) ==> n !in w.st.rows)
    ensures HasContainer(old(w.st), n) ==>
      && w.st.containers == old(w.st).containers && !r.Created?
      && (w.storeFaults == old(w.storeFaults) ==> n !in w.st.rows)
    ensures !r.NameTaken? && (r.VolumeExists? ==> n in old(w.st).volumes || w.hostFaults > old(w.hostFaults))
    ensures r.Created? ==> Serving(w.st, n, old(w.st), image, shape)
    ensures w.hostFaults == old(w.hostFaults) && w.storeFaults == old(w.storeFaults) ==>
      r == if shape.group !in w.host.groups then Rejected else Obstacle(w.host, old(w.st), n, Spec(image, shape))
    ensures r.Created? ==>
      && shape.group in w.host.groups && shape !in w.host.misfits
      && w.hostFaults == old(w.hostFaults) && w.storeFaults == old(w.storeFaults)
  {
    hide On, SameElsewhere, TidyButLast;
    var groupRead := w.Attempt();
    if !groupRead || shape.group !in w.host.groups {
      leftBehind := ForgetRow(w, n, s0, seen0);
      return Rejected, leftBehind;
    }
    var id, refusal;
    ghost var leaked;
    id, refusal, leaked := CreateContainer(w, n, Spec(image, shape), s0, seen0);
    if id == NoId {
      if leaked { w.leaks := w.leaks + 1; }
      leftBehind := ForgetRow(w, n, s0, seen0);
      return refusal, leftBehind;
    }
    var up := BringUp(w, n, id, s0, seen0);
    if !up {
      ghost var cleared;
      leftBehind, cleared := CleanupFailedCreate(w, n, id, s0, seen0);
      return TakenDown, leftBehind;
    }
    var recorded := WriteStatus(w, n, Running, s0, seen0);
    OnIsTidy(w, n, s0, seen0);
    return if recorded then Created else Unrecorded, false;
  }

  /** A leak is counted at most once, for a failed Docker call, in a create that failed after it had begun to build. */
  predicate Leaked(before: nat, after: nat, faulty: bool, r: CreateOutcome)
  {
    before <= after <= before + 1 && (after > before ==> faulty && (r.NotCreated? || r.TakenDown?))
  }

  /** The row says running and names the ready container of this image and shape. */
  ghost predicate Serving(s: State, n: Name, s0: State, image: ImageRef, shape: Shape)
  {
    && n in s.rows && s.rows[n].status == Running && s.rows[n].image == image && s.rows[n].shape == shape
    && n in s.volumes && Resolve(s0, image).Some?
    && IsReady(s, n, s.rows[n].cid, Resolve(s0, image).value, shape)
  }

  method CreateInstance(w: World, n: Name, image: ImageRef, shape: Shape)
    returns (r: CreateOutcome, ghost leftBehind: bool)
    requires w.Valid()
    modifies w`st, w`seen, w`hostFaults, w`storeFaults, w`leaks
    ensures w.hostFaults >= old(w.hostFaults) && w.storeFaults >= old(w.storeFaults)
    ensures n in old(w.st).rows ==> w.st == old(w.st) && w.seen == old(w.seen) && !r.Created?
    // Every crash point is accounted for; only a failed clean-up can leave something without a row.
    ensures n !in old(w.st).rows ==> TidyButLast(w, n, old(w.st), old(w.seen), leftBehind)
    ensures FreeName(old(w.st), n) && leftBehind ==> w.leaks > old(w.leaks)
    ensures Leaked(old(w.leaks), w.leaks, w.hostFaults > old(w.hostFaults), r)
    // What was there before is never adopted, changed or removed.
    ensures n in old(w.st).volumes ==> w.st.volumes == old(w.st).volumes && !r.Created?
    ensures HasContainer(old(w.st), n) ==> w.st.containers == old(w.st).containers && !r.Created?
    ensures !Tidy(old(w.st), n) && w.storeFaults == old(w.storeFaults) ==> n !in w.st.rows
    ensures r.NameTaken? ==> n in old(w.st).rows
    ensures r.Created? ==> !PortTaken(old(w.st), shape.port)
    ensures r.VolumeExists? ==> n in old(w.st).volumes || w.hostFaults > old(w.hostFaults)
    ensures r.Created? ==> Serving(w.st, n, old(w.st), image, shape)
    ensures w.hostFaults == old(w.hostFaults) && w.storeFaults == old(w.storeFaults) ==>
      r == Verdict(w.host, old(w.st), n, image, shape)
    ensures r.Created? ==>
      && shape.group in w.host.groups && shape !in w.host.misfits
      && w.hostFaults == old(w.hostFaults) && w.storeFaults == old(w.storeFaults)
  {
    hide PortTaken, SameElsewhere, TidyButLast, On, Obstacle, Wf, HasContainer, Resolve;
    leftBehind := HasContainer(w.st, n) || n in w.st.volumes;
    ghost var s0, seen0 := w.st, w.seen;
    if n !in w.st.rows { Begun(w, n, s0, seen0); }
    r := CheckRequest(w, n, shape);
    if r.Created? {
      var row := Row(Creating, NoId, image, shape);
      var inserted := w.InsertRow(n, row);
      SameButRow(w.host, n, s0, row);
      Begun(w, n, s0, seen0);
      if inserted {
        r, leftBehind := CreateInserted(w, n, image, shape, s0, seen0);
      } else {
        r := Rejected;
      }
    }
  }

  /** Nothing has happened yet, or a row has appeared. */
  lemma Begun(w: World, n: Name, s0: State, seen0: set<State>)
    requires w.Valid() && n !in s0.rows
    requires (w.st == s0 && w.seen == seen0)
      || (n in w.st.rows && w.st == WithRow(s0, n, w.st.rows[n]) && w.seen == seen0 + {w.st})
    ensures TidyButLast(w, n, s0, seen0, HasContainer(s0, n) || n in s0.volumes)
    ensures n in w.st.rows ==> On(w, n, s0, seen0)
  {
  }

  lemma SameButRow(host: Host, n: Name, s0: State, row: Row)
    ensures
      var s := WithRow(s0, n, row);
      && (HasContainer(s, n) <==> HasContainer(s0, n)) && Obstacle(host, s, n, Spec(row.image, row.shape))
         == Obstacle(host, s0, n, Spec(row.image, row.shape))
      && Resolve(s, row.image) == Resolve(s0, row.image)
  {
  }

  /** Everything that is looked at before the row goes in; `Created` lets the request pass. */
  method CheckRequest(w: World, n: Name, shape: Shape) returns (r: CreateOutcome)
    modifies w`hostFaults
    ensures w.hostFaults >= old(w.hostFaults) && r in {Rejected, NameTaken, Created}
    ensures r.NameTaken? ==> n in w.st.rows
    ensures r.Created? ==> n !in w.st.rows && !PortTaken(w.st, shape.port) && w.hostFaults == old(w.hostFaults)
    ensures r.Rejected? ==> w.hostFaults > old(w.hostFaults) || (n !in w.st.rows && PortTaken(w.st, shape.port))
  {
    var versionFits := w.Attempt();      // the version against the one the image's tag names
    if !versionFits { return Rejected; }
    var nameRead := w.Attempt();
    if !nameRead { return Rejected; }
    if n in w.st.rows { return NameTaken; }
    var portRead := w.Attempt();
    if !portRead { return Rejected; }
    if m :| m in w.st.rows && w.st.rows[m].shape.port == shape.port { return Rejected; }
    var encrypted := w.Attempt();
    r := if encrypted then Created else Rejected;
  }

  lemma OnIsTidy(w: World, n: Name, s0: State, seen0: set<State>)
    requires On(w, n, s0, seen0)
    ensures TidyButLast(w, n, s0, seen0, false)
  {
  }

  /** Docker is cleaned up first; the row goes only when nothing of the instance is left. */
  method DestroyInstance(w: World, n: Name) returns (ok: bool)
    requires w.Valid()
    modifies w`st, w`seen, w`hostFaults, w`storeFaults
    ensures w.hostFaults >= old(w.hostFaults) && w.storeFaults >= old(w.storeFaults)
    ensures w.Valid() && (Tidy(old(w.st), n) ==> TidyButLast(w, n, old(w.st), old(w.seen), false))
    ensures n !in old(w.st).rows ==> w.st == old(w.st) && w.seen == old(w.seen)
    ensures ok ==> n in old(w.st).rows && FreeName(w.st, n)
    ensures !ok ==> (n in w.st.rows <==> n in old(w.st).rows)
    ensures n in old(w.st).rows && w.hostFaults == old(w.hostFaults) && w.storeFaults == old(w.storeFaults) ==> ok
  {
    if n !in w.st.rows { return false; }
    var row := w.st.rows[n];
    ghost var s0, seen0 := w.st, w.seen;
    assert On(w, n, s0, seen0) && IdIsOwn(w.st, n, row.cid);
    ok := ClearDocker(w, n, row.cid, s0, seen0);
    OnIsTidy(w, n, s0, seen0);
    if !ok { return; }
    ghost var left := ForgetRow(w, n, s0, seen0);
    ok := n !in w.st.rows;
  }

  /** Container by id, container by name, volume; stop at the first failure. */
  method ClearDocker(w: World, n: Name, id: ContainerId, ghost s0: State, ghost seen0: set<State>) returns (ok: bool)
    requires On(w, n, s0, seen0) && IdIsOwn(w.st, n, id)
    modifies w`st, w`seen, w`hostFaults, w`storeFaults
    ensures On(w, n, s0, seen0) && w.storeFaults == old(w.storeFaults) && w.st.rows == old(w.st).rows
    ensures w.hostFaults >= old(w.hostFaults) && (w.hostFaults == old(w.hostFaults) ==> ok)
    ensures ok ==> !HasContainer(w.st, n) && n !in w.st.volumes
  {
    hide On, SameElsewhere;
    if id != NoId {
      ok := Clear(w, n, ById(id), s0, seen0);
      if !ok { return; }
    }
    ok := Clear(w, n, ByName(n), s0, seen0);
    if !ok { return; }
    ok := DropVolume(w, n, s0, seen0);
  }

  // ---- A clean-up that failed ---------------------------------------------------------

  /**
    The states of a create, in the order of the code, whose container does not start and
    whose volume then cannot be removed; the row goes all the same.
  */
  ghost function FailedCleanup(n: Name, s0: State, image: ImageRef, shape: Shape): (run: seq<State>)
    requires FreeName(s0, n) && Resolve(s0, image).Some?
    ensures |run| == 7 && run[0] == s0
    ensures n !in run[6].rows && run[6].volumes == s0.volumes[n := Volume(s0.nextId, map[])]
  {
    var s1 := WithRow(s0, n, Row(Creating, NoId, image, shape));
    var s2 := WithNewVolume(s1, n);
    var s3 := WithContainer(s2, n, Spec(image, shape));
    var s4 := WithRow(s3, n, s3.rows[n].(cid := s2.nextId));
    var s5 := s4.(containers := Without(s4.containers, ById(s2.nextId)));     // removed again
    var s6 := s5.(rows := s5.rows - {n});                                     // although the volume stayed
    [s0, s1, s2, s3, s4, s5, s6]
  }

  /** From every state in which the name is free: such a create leaves a volume without a row, at its last step. */
  lemma FailedCleanupStrands(n: Name, s0: State, image: ImageRef, shape: Shape)
    requires Wf(s0) && FreeName(s0, n) && Resolve(s0, image).Some?
    ensures
      var run := FailedCleanup(n, s0, image, shape);
      && (forall i | 0 <= i < 6 :: Tidy(run[i], n)) && !Tidy(run[6], n)
      && Wf(run[6]) && SameElsewhere(n, s0, run[6])
  {
    LeftByCleanup(n, s0, image, shape);
    var s := s0.(volumes := s0.volumes[n := Volume(s0.nextId, map[])], nextId := s0.nextId + 2);
    assert Wf(s) && SameElsewhere(n, s0, s) by { OneMoreVolume(n, s0); }
    hide Wf, SameElsewhere, WithContainer, WithNewVolume;
    assert forall i | 1 <= i < 6 :: n in FailedCleanup(n, s0, image, shape)[i].rows;
  }

  lemma LeftByCleanup(n: Name, s0: State, image: ImageRef, shape: Shape)
    requires Wf(s0) && FreeName(s0, n) && Resolve(s0, image).Some?
    ensures FailedCleanup(n, s0, image, shape)[6]
         == s0.(volumes := s0.volumes[n := Volume(s0.nextId, map[])], nextId := s0.nextId + 2)
  {
    var s := FailedCleanup(n, s0, image, shape)[6];
    assert s.containers == s0.containers && s.rows == s0.rows;
  }

  lemma OneMoreVolume(n: Name, s0: State)
    requires Wf(s0) && FreeName(s0, n)
    ensures
      var s := s0.(volumes := s0.volumes[n := Volume(s0.nextId, map[])], nextId := s0.nextId + 2);
      Wf(s) && SameElsewhere(n, s0, s)
  {
    assert s0.volumes[n := Volume(s0.nextId, map[])] - {n} == s0.volumes - {n};
  }

  /** There is still no row, and whatever there was is still there. */
  ghost predicate Stranded(n: Name, s0: State, s: State)
  {
    && !Tidy(s, n) && (HasContainer(s0, n) ==> s.containers == s0.containers)
    && (n in s0.volumes ==> s.volumes == s0.volumes)
  }

  /**
    Once a container or volume has no row, the name stays unusable: as long as catalogue
    writes land, no sequence of destroys and creates ever frees or serves it.
  */
  method StaysStranded(w: World, n: Name, image: ImageRef, shape: Shape, tries: seq<bool>)
    returns (everServed: bool, everFreed: bool)
    requires w.Valid() && !Tidy(w.st, n)
    modifies w`st, w`seen, w`hostFaults, w`storeFaults, w`leaks
    ensures w.storeFaults >= old(w.storeFaults)
    ensures w.storeFaults == old(w.storeFaults) ==>
      !everServed && !everFreed && Stranded(n, old(w.st), w.st)
  {
    everServed, everFreed := false, false;
    for i := 0 to |tries|
      invariant w.Valid() && w.storeFaults >= old(w.storeFaults)
      invariant w.storeFaults == old(w.storeFaults) ==>
        !everServed && !everFreed && Stranded(n, old(w.st), w.st)
    {
      if tries[i] {
        var r, _ := CreateInstance(w, n, image, shape);
        everServed := everServed || r.Created?;
      } else {
        var ok := DestroyInstance(w, n);
        everFreed := everFreed || ok;
      }
    }
  }
}
