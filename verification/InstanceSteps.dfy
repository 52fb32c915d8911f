/**
  The atomic steps of an operation that works on one instance while its row stays in the
  catalogue.  `On` is what such an operation keeps: at every crash point since it began,
  nothing of another instance has changed and the row is there to account for whatever
  container or volume the instance has.
*/
module InstanceSteps {
  import opened Deployment
  import opened ClusterRecreate

  ghost predicate RowAlong(seen0: set<State>, seen: set<State>, n: Name, s0: State)
  {
    seen0 <= seen && forall s | s in seen && s !in seen0 :: SameElsewhere(n, s0, s) && Wf(s) && n in s.rows
  }

  /** The operation on `n` began in `s0`, when `seen0` had been seen. */
  ghost predicate On(w: World, n: Name, s0: State, seen0: set<State>)
    reads w`st, w`seen
  {
    w.Valid() && n in w.st.rows && SameElsewhere(n, s0, w.st) && RowAlong(seen0, w.seen, n, s0)
  }

  lemma TidyElsewhere(n: Name, s0: State, s: State, m: Name)
    requires SameElsewhere(n, s0, s) && m != n
    ensures Tidy(s0, m) <==> Tidy(s, m)
  {
    assert m in s.rows <==> m in s.rows - {n};
    assert m in s0.rows <==> m in s0.rows - {n};
    assert m in s.volumes <==> m in s.volumes - {n};
    assert m in s0.volumes <==> m in s0.volumes - {n};
    assert forall id | id in s.containers && s.containers[id].owner == m :: id in Foreign(s, n);
    assert forall id | id in s0.containers && s0.containers[id].owner == m :: id in Foreign(s0, n);
  }

  method MakeVolume(w: World, n: Name, ghost s0: State, ghost seen0: set<State>) returns (ok: bool)
    requires On(w, n, s0, seen0) && n !in w.st.volumes
    modifies w`st, w`seen, w`hostFaults
    ensures On(w, n, s0, seen0) && w.seen == old(w.seen) + {w.st}
    ensures w.st == old(w.st) || w.st == WithNewVolume(old(w.st), n)
    ensures ok ==> w.st == WithNewVolume(old(w.st), n)
    ensures w.hostFaults == old(w.hostFaults) + (if ok then 0 else 1)
  {
    ok := w.CreateVolume(n);
  }

  method DropVolume(w: World, n: Name, ghost s0: State, ghost seen0: set<State>) returns (ok: bool)
    requires On(w, n, s0, seen0)
    modifies w`st, w`seen, w`hostFaults
    ensures On(w, n, s0, seen0) && w.seen == old(w.seen) + {w.st}
    ensures w.st == old(w.st) || w.st == old(w.st).(volumes := old(w.st).volumes - {n})
    ensures ok ==> n !in w.st.volumes
    ensures w.hostFaults == old(w.hostFaults) + (if ok then 0 else 1)
  {
    ok := w.RemoveVolume(n);
  }

  method Build(w: World, n: Name, spec: Spec, ghost s0: State, ghost seen0: set<State>) returns (id: ContainerId)
    requires On(w, n, s0, seen0)
    modifies w`st, w`seen, w`hostFaults
    ensures On(w, n, s0, seen0) && w.seen == old(w.seen) + {w.st}
    ensures OnlyContainer(n, old(w.st), w.st)
    ensures id == NoId ==> w.st == old(w.st) || w.hostFaults > old(w.hostFaults)
    ensures id != NoId ==>
      && !HasContainer(old(w.st), n)
      && Resolve(old(w.st), spec.image).Some? && id < w.st.nextId
      && IsBuild(w.st, n, id, Resolve(old(w.st), spec.image).value, spec.shape)
    ensures HasContainer(old(w.st), n) ==> w.st == old(w.st)
    ensures w.hostFaults >= old(w.hostFaults)
    ensures id != NoId ==> w.hostFaults == old(w.hostFaults)
    ensures id == NoId && w.hostFaults == old(w.hostFaults) ==>
      HasContainer(old(w.st), n) || Resolve(old(w.st), spec.image).None?
  {
    SameElsewhereComposes(n, s0, w.st);
    id := CreateOwn(w, n, spec);
  }

  method Clear(w: World, n: Name, ref: Ref, ghost s0: State, ghost seen0: set<State>) returns (ok: bool)
    requires On(w, n, s0, seen0) && (ref == ByName(n) || (ref.ById? && IdIsOwn(w.st, n, ref.id)))
    modifies w`st, w`seen, w`hostFaults
    ensures On(w, n, s0, seen0) && w.seen == old(w.seen) + {w.st}
    ensures OnlyContainer(n, old(w.st), w.st) && Remains(w.st, n, old(w.st))
    ensures ok && ref == ByName(n) ==> !HasContainer(w.st, n)
    ensures ok && ref.ById? ==> ref.id !in w.st.containers
    ensures ok ==> w.st == Cleared(old(w.st), ref)
    ensures ref.ById? && ref.id !in old(w.st).containers ==> w.st == old(w.st)
    ensures w.hostFaults == old(w.hostFaults) + (if ok then 0 else 1)
  {
    SameElsewhereComposes(n, s0, w.st);
    ok := RemoveOwn(w, n, ref);
  }

  method Move(w: World, n: Name, id: ContainerId, state: ContainerState, ghost s0: State, ghost seen0: set<State>)
    returns (ok: bool)
    requires On(w, n, s0, seen0) && IdIsOwn(w.st, n, id)
    modifies w`st, w`seen, w`hostFaults
    ensures On(w, n, s0, seen0) && w.seen == old(w.seen) + {w.st}
    ensures OnlyContainer(n, old(w.st), w.st) && IdIsOwn(w.st, n, id)
    ensures state == Down ==> Remains(w.st, n, old(w.st))
    ensures forall image, shape | IsBuild(old(w.st), n, id, image, shape) :: IsBuild(w.st, n, id, image, shape)
    ensures ok ==> id in w.st.containers && w.st.containers[id].state == state
    ensures w.hostFaults == old(w.hostFaults) + (if ok || id !in old(w.st).containers then 0 else 1)
  {
    SameElsewhereComposes(n, s0, w.st);
    ok := MoveOwn(w, n, id, state);
  }

  method AwaitServer(w: World, n: Name, id: ContainerId, ghost s0: State, ghost seen0: set<State>) returns (ok: bool)
    requires On(w, n, s0, seen0) && IdIsOwn(w.st, n, id)
    modifies w`st, w`seen, w`hostFaults
    ensures On(w, n, s0, seen0) && w.seen == old(w.seen) + {w.st}
    ensures OnlyContainer(n, old(w.st), w.st) && IdIsOwn(w.st, n, id)
    ensures forall image, shape | IsBuild(old(w.st), n, id, image, shape) :: IsBuild(w.st, n, id, image, shape)
    ensures ok ==> id in w.st.containers && w.st.containers[id].state == Up && w.st.containers[id].accepted
    ensures w.hostFaults >= old(w.hostFaults) && (ok ==> w.hostFaults == old(w.hostFaults))
    ensures !ok && id in old(w.st).containers && old(w.st).containers[id].state == Up ==>
      w.hostFaults > old(w.hostFaults)
  {
    SameElsewhereComposes(n, s0, w.st);
    ok := ProbeOwn(w, n, id);
  }

  method Write(w: World, n: Name, row: Row, ghost s0: State, ghost seen0: set<State>) returns (ok: bool)
    requires On(w, n, s0, seen0) && row.cid < w.st.nextId && IdIsOwn(w.st, n, row.cid)
    modifies w`st, w`seen, w`storeFaults
    ensures On(w, n, s0, seen0) && w.seen == old(w.seen) + {w.st}
    ensures w.st == if ok then WithRow(old(w.st), n, row) else old(w.st)
    ensures w.storeFaults == old(w.storeFaults) + (if ok then 0 else 1)
  {
    SameElsewhereComposes(n, s0, w.st);
    ok := RecordRow(w, n, row);
  }

  method WriteStatus(w: World, n: Name, status: Status, ghost s0: State, ghost seen0: set<State>) returns (ok: bool)
    requires On(w, n, s0, seen0)
    modifies w`st, w`seen, w`storeFaults
    ensures On(w, n, s0, seen0) && w.seen == old(w.seen) + {w.st}
    ensures w.st == if ok then WithRow(old(w.st), n, old(w.st).rows[n].(status := status)) else old(w.st)
    ensures w.storeFaults == old(w.storeFaults) + (if ok then 0 else 1)
  {
    ok := Write(w, n, w.st.rows[n].(status := status), s0, seen0);
  }
}
