/**
  The two stores an instance lives in: the Docker world (containers, volumes, images)
  and the catalogue (one row per instance).  Every primitive below is one atomic effect.

  A Docker or store call may fail at any time: each primitive chooses that
  nondeterministically, so a contract proved about its callers holds for every pattern
  of failures.  A failed removal, start or stop may still have taken effect.

  The field `seen` collects every state the stores pass through.  The process can
  die after any atomic effect, so "at every crash point" is a quantifier over `seen`.
*/
module Deployment {
  import opened Basics

  type Name = string

  /** Docker never reuses a container id; `NoId` is the empty id of a row that has none. */
  type ContainerId = nat
  const NoId: ContainerId := 0

  type ImageId = nat

  /** An image is named by a tag, which a pull can move, or pinned by its id. */
  datatype ImageRef = Tag(tag: string) | Pinned(id: ImageId)

  datatype Status =
    | Running | Stopped | Error
    | Creating | Restoring | Switching | Reconfiguring | Upgrading
    | Broken | BrokenPort | BrokenAuth
    | Unclassified(text: string)

  datatype ContainerState = Up | Down | Paused | Restarting

  /** The part of an instance's configuration that is fixed when its container is built. */
  datatype Shape = Shape(major: nat, port: int, cpuCores: int, ramMB: int, group: string)

  datatype Spec = Spec(image: ImageRef, shape: Shape)

  /** `accepted`: PostgreSQL in this container has answered a readiness probe. */
  datatype Container = Container(owner: Name, image: ImageId, shape: Shape, state: ContainerState, accepted: bool)

  datatype Row = Row(status: Status, cid: ContainerId, image: ImageRef, shape: Shape)

  /** One database: its locale provider ("c" is libc), its contents, and whether it is marked as a template. */
  datatype Database = Database(provider: string, content: int, template: bool)

  /** A PostgreSQL cluster: its databases by name, apart from the two templates every cluster has. */
  type Cluster = map<string, Database>

  /** A data volume; `gen` tells a volume from a later one of the same name. */
  datatype Volume = Volume(gen: nat, data: Cluster)

  /**
    A published backup archive of one instance: the dumped databases and the metadata list
    read from the live cluster afterwards.
  */
  datatype Archive = Archive(owner: Name, dumps: Cluster, metadata: map<string, string>)

  /**
    A client of an instance left this behind in the volume of that generation; `during`
    says in which upgrade, by the length the log had when that began, or in none.
  */
  datatype ClientWrite = ClientWrite(n: Name, gen: nat, data: Cluster, during: Option<nat>)

  datatype State = State(
    containers: map<ContainerId, Container>,
    nextId: ContainerId,
    volumes: map<Name, Volume>,
    rows: map<Name, Row>,
    tags: map<string, ImageId>,
    images: set<ImageId>,
    archives: seq<Archive>)

  /** How a Docker call names a container. */
  datatype Ref = ById(id: ContainerId) | ByName(owner: Name)

  predicate Matches(id: ContainerId, c: Container, ref: Ref)
  {
    match ref
    case ById(i) => id == i
    case ByName(o) => c.owner == o
  }

  function Resolve(s: State, ref: ImageRef): Option<ImageId>
  {
    match ref
    case Tag(t) => if t in s.tags then Some(s.tags[t]) else None
    case Pinned(i) => if i in s.images then Some(i) else None
  }

  predicate Owns(s: State, n: Name, id: ContainerId)
  {
    id in s.containers && s.containers[id].owner == n
  }

  ghost predicate HasContainer(s: State, n: Name)
  {
    exists id :: id in s.containers && s.containers[id].owner == n
  }

  function Without(cs: map<ContainerId, Container>, ref: Ref): map<ContainerId, Container>
  {
    map id | id in cs && !Matches(id, cs[id], ref) :: cs[id]
  }

  /** The containers that do not belong to instance `n`. */
  function Foreign(s: State, n: Name): map<ContainerId, Container>
  {
    Without(s.containers, ByName(n))
  }

  /**
    What Docker and the catalogue guarantee between them: ids are allocated once, a
    container name is held by at most one container, and a row's container id, when it
    names a container at all, names the instance's own.
  */
  ghost predicate Wf(s: State)
  {
    && 0 < s.nextId
    && (forall id | id in s.containers :: 0 < id < s.nextId)
    && (forall a, b | a in s.containers && b in s.containers && s.containers[a].owner == s.containers[b].owner ::
          a == b)
    && (forall n | n in s.volumes :: s.volumes[n].gen < s.nextId)
    && (forall n | n in s.rows :: s.rows[n].cid < s.nextId && IdIsOwn(s, n, s.rows[n].cid))
  }

  predicate IdIsOwn(s: State, n: Name, id: ContainerId)
  {
    id in s.containers ==> s.containers[id].owner == n
  }

  /** No container or volume carries an instance's name unless the catalogue has its row. */
  ghost predicate Tidy(s: State, n: Name)
  {
    HasContainer(s, n) || n in s.volumes ==> n in s.rows
  }

  ghost predicate PortTaken(s: State, port: int)
  {
    exists m :: m in s.rows && s.rows[m].shape.port == port
  }

  /** Everything an operation on instance `n` has no business with. */
  datatype Rest = Rest(
    rows: map<Name, Row>, volumes: map<Name, Volume>, containers: map<ContainerId, Container>,
    tags: map<string, ImageId>, images: set<ImageId>)

  function Elsewhere(s: State, n: Name): Rest
  {
    Rest(s.rows - {n}, s.volumes - {n}, Foreign(s, n), s.tags, s.images)
  }

  /** Nothing that belongs to another instance differs, and no archive is lost. */
  ghost predicate SameElsewhere(n: Name, s0: State, s: State)
  {
    Elsewhere(s, n) == Elsewhere(s0, n) && s0.archives <= s.archives && s0.nextId <= s.nextId
  }

  lemma SameElsewhereComposes(n: Name, s0: State, s1: State)
    requires SameElsewhere(n, s0, s1)
    ensures forall s | SameElsewhere(n, s1, s) :: SameElsewhere(n, s0, s)
  {
  }

  /** Only the container of instance `n` may differ. */
  ghost predicate OnlyContainer(n: Name, s0: State, s: State)
  {
    && SameElsewhere(n, s0, s)
    && s.rows == s0.rows && s.volumes == s0.volumes && s.archives == s0.archives
  }

  function WithNewVolume(s: State, n: Name): State
  {
    s.(volumes := s.volumes[n := Volume(s.nextId, map[])], nextId := s.nextId + 1)
  }

  function WithData(s: State, n: Name, data: Cluster): State
    requires n in s.volumes
  {
    s.(volumes := s.volumes[n := s.volumes[n].(data := data)])
  }

  function WithRow(s: State, n: Name, row: Row): State
  {
    s.(rows := s.rows[n := row])
  }

  /** A new container of this spec, not started yet. */
  function WithContainer(s: State, n: Name, spec: Spec): State
    requires Resolve(s, spec.image).Some?
  {
    var c := Container(n, Resolve(s, spec.image).value, spec.shape, Down, false);
    s.(nextId := s.nextId + 1, containers := s.containers[s.nextId := c])
  }

  function Moved(s: State, id: ContainerId, state: ContainerState, accepted: bool): State
    requires id in s.containers
  {
    var c := s.containers[id];
    s.(containers := s.containers[id := c.(state := state, accepted := c.accepted || accepted)])
  }

  lemma MovedKeeps(s: State, id: ContainerId, state: ContainerState, accepted: bool)
    requires Wf(s) && id in s.containers
    ensures Wf(Moved(s, id, state, accepted))
    ensures Foreign(Moved(s, id, state, accepted), s.containers[id].owner) == Foreign(s, s.containers[id].owner)
  {
    var t := Moved(s, id, state, accepted);
    assert t.containers.Keys == s.containers.Keys;
    assert forall i | i in s.containers :: t.containers[i].owner == s.containers[i].owner;
  }

  /**
    What an operation finds and does not change: the machine's resources, the parameter groups
    there are, and the shapes whose group does not resolve or does not fit into their RAM.
  */
  datatype Host = Host(cores: int, memoryMB: int, groups: set<string>, misfits: set<Shape>)

  class World {
    const host: Host

    var st: State
    var seen: set<State>

    /**
      How many catalogue writes have failed so far, and how many other calls: to Docker, to
      PostgreSQL and to the host, lookups, and checks the model does not look into.
    */
    ghost var storeFaults: nat
    ghost var hostFaults: nat

    /** How often a failed create could not clear away what it had made. */
    ghost var leaks: nat

    /** Every change clients have made to an instance's data, in order. */
    ghost var writes: seq<ClientWrite>

    ghost predicate Valid()
      reads this`st, this`seen
    {
      st in seen && Wf(st)
    }

    /** A call or a check whose inside is not modelled. */
    method Attempt() returns (ok: bool)
      modifies this`hostFaults
      ensures hostFaults == old(hostFaults) + (if ok then 0 else 1)
    {
      ok := *;
      if !ok { hostFaults := hostFaults + 1; }
    }

    // ---- Docker -------------------------------------------------------------------

    /** Looks a container up by id or by name; `failed` is an error other than "not found". */
    method Inspect(ref: Ref) returns (found: Option<ContainerId>, failed: bool)
      requires Valid()
      modifies this`hostFaults
      ensures !failed && found.Some? ==>
        found.value in st.containers && Matches(found.value, st.containers[found.value], ref)
      ensures !failed && found.None? ==> forall id | id in st.containers :: !Matches(id, st.containers[id], ref)
      ensures hostFaults == old(hostFaults) + (if failed then 1 else 0)
    {
      failed := *;
      found := None;
      if failed {
        hostFaults := hostFaults + 1;
      } else if id :| id in st.containers && Matches(id, st.containers[id], ref) {
        found := Some(id);
      }
    }

    /** An image counts as present only if it could be inspected. */
    method CheckImageExists(ref: ImageRef) returns (present: bool)
      modifies this`hostFaults
      ensures present ==> Resolve(st, ref).Some? && hostFaults == old(hostFaults)
      ensures !present ==>
        (Resolve(st, ref).None? && hostFaults == old(hostFaults)) || hostFaults == old(hostFaults) + 1
    {
      var failed := *;
      if failed { hostFaults := hostFaults + 1; }
      present := !failed && Resolve(st, ref).Some?;
    }

    /** Removing what is already gone succeeds. */
    method RemoveContainer(ref: Ref) returns (ok: bool)
      requires Valid()
      modifies this`st, this`seen, this`hostFaults
      ensures Valid()
      ensures st == old(st) || st == old(st).(containers := Without(old(st).containers, ref))
      ensures seen == old(seen) + {st}
      ensures ok ==> st.containers == Without(old(st).containers, ref)
      ensures hostFaults == old(hostFaults) + (if ok then 0 else 1)
    {
      ok := *;
      var effective := *;
      if ok || effective {
        st := st.(containers := Without(st.containers, ref));
      }
      if !ok { hostFaults := hostFaults + 1; }
      seen := seen + {st};
    }

    /** Moves an existing container to a new run state: start and stop. */
    method Transition(id: ContainerId, state: ContainerState) returns (ok: bool)
      requires Valid()
      modifies this`st, this`seen, this`hostFaults
      ensures Valid()
      ensures st == old(st) || (id in old(st).containers && st == Moved(old(st), id, state, false))
      ensures seen == old(seen) + {st}
      ensures ok ==> id in old(st).containers && st == Moved(old(st), id, state, false)
      ensures hostFaults == old(hostFaults) + (if ok || id !in old(st).containers then 0 else 1)
    {
      var fault := *;
      var effective := *;
      ok := !fault && id in st.containers;
      if !ok && id in st.containers { hostFaults := hostFaults + 1; }
      if id in st.containers && (ok || effective) {
        MovedKeeps(st, id, state, false);
        st := Moved(st, id, state, false);
      }
      seen := seen + {st};
    }

    /** Waits until the server in a container accepts connections; one that is not up never does. */
    method Probe(id: ContainerId) returns (ok: bool)
      requires Valid()
      modifies this`st, this`seen, this`hostFaults
      ensures Valid() && seen == old(seen) + {st}
      ensures ok ==>
        && id in old(st).containers && old(st).containers[id].state == Up
        && st == Moved(old(st), id, Up, true) && hostFaults == old(hostFaults)
      ensures !ok ==> st == old(st) && old(hostFaults) <= hostFaults
      ensures !ok && id in old(st).containers && old(st).containers[id].state == Up ==> hostFaults > old(hostFaults)
    {
      var answers := Attempt();
      ok := answers && id in st.containers && st.containers[id].state == Up;
      if ok {
        MovedKeeps(st, id, Up, true);
        st := Moved(st, id, Up, true);
      }
      seen := seen + {st};
    }

    /**
      Docker refuses a name that is taken, and resolves the image once, here; a create that
      failed may have made the container.
    */
    method CreateNamed(n: Name, spec: Spec) returns (id: ContainerId)
      requires Valid()
      modifies this`st, this`seen, this`hostFaults
      ensures Valid() && old(hostFaults) <= hostFaults
      ensures st == old(st) || (Resolve(old(st), spec.image).Some? && !HasContainer(old(st), n)
          && st == WithContainer(old(st), n, spec))
      ensures seen == old(seen) + {st}
      ensures id != NoId ==> id == old(st).nextId && st != old(st) && hostFaults == old(hostFaults)
      ensures id == NoId && hostFaults == old(hostFaults) ==>
        st == old(st) && (HasContainer(st, n) || Resolve(st, spec.image).None?)
    {
      id := NoId;
      var fault, effective := *, *;
      if fault { hostFaults := hostFaults + 1; }
      if other :| other in st.containers && st.containers[other].owner == n {
        assert Owns(st, n, other);
      } else if Resolve(st, spec.image).Some? && (!fault || effective) {
        if !fault { id := st.nextId; }
        assert forall i :: i !in st.containers || st.containers[i].owner != n;
        st := WithContainer(st, n, spec);
      }
      seen := seen + {st};
    }

    /** A volume that cannot be inspected is reported as `failed`. */
    method InspectVolume(n: Name) returns (present: bool, failed: bool)
      modifies this`hostFaults
      ensures !failed ==> present == (n in st.volumes)
      ensures hostFaults == old(hostFaults) + (if failed then 1 else 0)
    {
      failed := *;
      present := !failed && n in st.volumes;
      if failed { hostFaults := hostFaults + 1; }
    }

    /** A creation that failed may have made the volume all the same. */
    method CreateVolume(n: Name) returns (ok: bool)
      requires Valid() && n !in st.volumes
      modifies this`st, this`seen, this`hostFaults
      ensures Valid()
      ensures st == old(st) || st == WithNewVolume(old(st), n)
      ensures ok ==> st == WithNewVolume(old(st), n)
      ensures seen == old(seen) + {st}
      ensures hostFaults == old(hostFaults) + (if ok then 0 else 1)
    {
      ok := *;
      var effective := *;
      if ok || effective { st := WithNewVolume(st, n); }
      if !ok { hostFaults := hostFaults + 1; }
      seen := seen + {st};
    }

    method RemoveVolume(n: Name) returns (ok: bool)
      requires Valid()
      modifies this`st, this`seen, this`hostFaults
      ensures Valid()
      ensures st == old(st) || st == old(st).(volumes := old(st).volumes - {n})
      ensures seen == old(seen) + {st}
      ensures ok ==> st.volumes == old(st).volumes - {n}
      ensures hostFaults == old(hostFaults) + (if ok then 0 else 1)
    {
      ok := *;
      var effective := *;
      if ok || effective {
        st := st.(volumes := st.volumes - {n});
      }
      if !ok { hostFaults := hostFaults + 1; }
      seen := seen + {st};
    }

    /** PostgreSQL changes the contents of the instance's volume. */
    method WriteData(n: Name, data: Cluster)
      requires Valid() && n in st.volumes
      modifies this`st, this`seen
      ensures Valid() && st == WithData(old(st), n, data) && seen == old(seen) + {st}
    {
      st := WithData(st, n, data);
      seen := seen + {st};
    }

    /** A verified archive appears in the backup directory, or nothing does. */
    method Publish(a: Archive) returns (ok: bool)
      requires Valid()
      modifies this`st, this`seen, this`hostFaults
      ensures Valid() && seen == old(seen) + {st}
      ensures st == if ok then old(st).(archives := old(st).archives + [a]) else old(st)
      ensures hostFaults == old(hostFaults) + (if ok then 0 else 1)
    {
      ok := Attempt();
      if ok { st := st.(archives := st.archives + [a]); }
      seen := seen + {st};
    }

    // ---- Catalogue ----------------------------------------------------------------

    /** Every catalogue write is one row write that either lands or changes nothing. */
    method WriteRow(n: Name, row: Row) returns (ok: bool)
      requires Valid() && n in st.rows
      requires row.cid < st.nextId && IdIsOwn(st, n, row.cid)
      modifies this`st, this`seen, this`storeFaults
      ensures Valid()
      ensures ok ==> st == WithRow(old(st), n, row) && seen == old(seen) + {st} && storeFaults == old(storeFaults)
      ensures !ok ==> st == old(st) && seen == old(seen) && storeFaults == old(storeFaults) + 1
    {
      ok := *;
      if ok {
        st := WithRow(st, n, row);
        seen := seen + {st};
      } else {
        storeFaults := storeFaults + 1;
      }
    }

    method InsertRow(n: Name, row: Row) returns (ok: bool)
      requires Valid() && n !in st.rows && row.cid == NoId
      modifies this`st, this`seen, this`storeFaults
      ensures Valid()
      ensures (st == old(st) && seen == old(seen)) || (st == WithRow(old(st), n, row) && seen == old(seen) + {st})
      ensures ok ==> n in st.rows && st.rows[n] == row && storeFaults == old(storeFaults)
      ensures !ok ==> storeFaults == old(storeFaults) + 1
    {
      // The insert is followed by a read of the new row, which can fail on its own.
      var inserted := *;
      var readBack := *;
      ok := inserted && readBack;
      if inserted {
        st := WithRow(st, n, row);
        seen := seen + {st};
      }
      if !ok { storeFaults := storeFaults + 1; }
    }

    method DeleteRow(n: Name) returns (ok: bool)
      requires Valid()
      modifies this`st, this`seen, this`storeFaults
      ensures Valid()
      ensures ok ==>
        st == old(st).(rows := old(st).rows - {n}) && seen == old(seen) + {st} && storeFaults == old(storeFaults)
      ensures !ok ==> st == old(st) && seen == old(seen) && storeFaults == old(storeFaults) + 1
    {
      ok := *;
      if ok {
        st := st.(rows := st.rows - {n});
        seen := seen + {st};
      } else {
        storeFaults := storeFaults + 1;
      }
    }
  }
}
