/**
  Whole runs of the control plane: any number of operations on any instances, each with
  any pattern of failures, the process dying at any crash point of any of them, and
  startup reconciliation (which can die as well) after every restart.
*/
module Sessions {
  import opened Basics
  import opened Deployment
  import opened InstanceSteps
  import opened Lifecycle
  import ClusterRecreate
  import Reconfigure
  import Reconcile
  import Upgrade

  datatype Command =
    | Create(image: ImageRef, shape: Shape)
    | Destroy
    | Change(request: Reconfigure.Request)
    | Switch(target: ImageRef, major: nat)
    | UpgradeTo(to: nat, with: ImageRef)

  /** What happens next; the process may die at any crash point of an operation or a startup. */
  datatype Event = Operate(n: Name, cmd: Command) | Serve(n: Name, data: Cluster) | Startup

  // ---- Where the data is --------------------------------------------------------------

  /** From position `j` of the log on, this volume was only written to while upgrade `u` was running. */
  predicate OnlyDuring(log: seq<ClientWrite>, j: int, m: Name, gen: nat, u: nat)
  {
    forall p | 0 <= p < |log| && j <= p && log[p].n == m && log[p].gen == gen :: log[p].during == Some(u)
  }

  ghost predicate OnlyLate(log: seq<ClientWrite>, j: int, m: Name, gen: nat)
  {
    exists u: nat :: OnlyDuring(log, j, m, gen, u)
  }

  /**
    A backup of the volume `m` had in `s0` that misses at most what clients wrote while one
    and the same upgrade was running.
  */
  ghost predicate BackedUp(a: Archive, m: Name, s0: State, log: seq<ClientWrite>)
  {
    m in s0.volumes && exists j, k :: Upgrade.Taken(a, m, s0, log, j, k) && OnlyLate(log, j, m, s0.volumes[m].gen)
  }

  ghost predicate Archived(m: Name, s0: State, s: State, log: seq<ClientWrite>)
  {
    exists i :: |s0.archives| <= i < |s.archives| && Upgrade.Guarded(m, s.archives[i])
        && BackedUp(s.archives[i], m, s0, log)
  }

  /**
    The data `m` had in `s0`, as its clients changed it since, is in its volume; or that volume
    has been removed, and a checked archive holds all but what was written during the upgrade.
  */
  ghost predicate Held(m: Name, s0: State, s: State, log: seq<ClientWrite>)
    requires m in s0.volumes
  {
    if Upgrade.OldVolume(m, s0, s) then s.volumes[m].data == Upgrade.After(m, s0, log) else Archived(m, s0, s, log)
  }

  /** An instance of `s0` is still in the catalogue, and so is its data somewhere. */
  ghost predicate Keeps(m: Name, s0: State, s: State, log: seq<ClientWrite>)
  {
    m in s0.rows ==> m in s.rows && SameOrNewer(m, s0, s) && (m in s0.volumes ==> Held(m, s0, s, log))
  }

  /** Without client writes: the very same volume, or an archive of exactly what it held. */
  ghost predicate HeldExactly(m: Name, s0: State, s: State)
    requires m in s0.volumes
  {
    || (m in s.volumes && s.volumes[m] == s0.volumes[m])
    || exists i :: |s0.archives| <= i < |s.archives| && s.archives[i] == Upgrade.Snapshot(m, s0.volumes[m].data)
  }

  lemma QuietlyHeld(m: Name, s0: State, s: State, log: seq<ClientWrite>)
    requires m in s0.volumes && Held(m, s0, s, log) && Upgrade.NotWritten(m, log)
    ensures HeldExactly(m, s0, s)
  {
    Upgrade.AfterNothing(m, s0, log);
    if !Upgrade.OldVolume(m, s0, s) {
      var i :| |s0.archives| <= i < |s.archives| && Upgrade.Guarded(m, s.archives[i])
          && BackedUp(s.archives[i], m, s0, log);
      Upgrade.TakenQuietly(s.archives[i], m, s0, log);
    }
  }

  /** The contents of the same volume, counted from an earlier state. */
  lemma {:induction false} AfterComposes(m: Name, s0: State, s1: State, log1: seq<ClientWrite>, log2: seq<ClientWrite>)
    requires Upgrade.OldVolume(m, s0, s1) && s1.volumes[m].data == Upgrade.After(m, s0, log1)
    ensures Upgrade.After(m, s1, log2) == Upgrade.After(m, s0, log1 + log2)
    decreases |log2|
  {
    if log2 == [] {
      assert log1 + log2 == log1;
    } else {
      var n := |log2| - 1;
      AfterComposes(m, s0, s1, log1, log2[..n]);
      assert (log1 + log2)[..|log1| + n] == log1 + log2[..n];
    }
  }

  lemma AfterPrefix(m: Name, s0: State, s1: State, log1: seq<ClientWrite>, log2: seq<ClientWrite>, p: int)
    requires Upgrade.OldVolume(m, s0, s1) && s1.volumes[m].data == Upgrade.After(m, s0, log1) && 0 <= p <= |log2|
    ensures Upgrade.After(m, s1, log2[..p]) == Upgrade.After(m, s0, (log1 + log2)[..|log1| + p])
  {
    AfterComposes(m, s0, s1, log1, log2[..p]);
    assert (log1 + log2)[..|log1| + p] == log1 + log2[..p];
  }

  /** A backup of the same volume, counted from an earlier state: it was taken after all writes of the first log. */
  lemma TakenComposes(a: Archive, m: Name, s0: State, s1: State, log1: seq<ClientWrite>, log2: seq<ClientWrite>, j: int,
      k: int)
    requires Upgrade.OldVolume(m, s0, s1) && s1.volumes[m].data == Upgrade.After(m, s0, log1)
    requires Upgrade.Taken(a, m, s1, log2, j, k)
    ensures Upgrade.Taken(a, m, s0, log1 + log2, |log1| + j, |log1| + k)
  {
    hide Upgrade.After, Upgrade.Listed, Upgrade.Providers;
    AfterPrefix(m, s0, s1, log1, log2, j);
    AfterPrefix(m, s0, s1, log1, log2, k);
    forall db | db in a.dumps
      ensures exists p :: |log1| + j <= p <= |log1| + k && Upgrade.DumpAt(a.dumps[db], db, m, s0, log1 + log2, p)
    {
      var p :| j <= p <= k && Upgrade.DumpAt(a.dumps[db], db, m, s1, log2, p);
      AfterPrefix(m, s0, s1, log1, log2, p);
      assert Upgrade.DumpAt(a.dumps[db], db, m, s0, log1 + log2, |log1| + p);
    }
  }

  lemma BackedUpComposes(a: Archive, m: Name, s0: State, s1: State, log1: seq<ClientWrite>, log2: seq<ClientWrite>)
    requires Upgrade.OldVolume(m, s0, s1) && s1.volumes[m].data == Upgrade.After(m, s0, log1)
    requires BackedUp(a, m, s1, log2)
    ensures BackedUp(a, m, s0, log1 + log2)
  {
    hide Upgrade.Taken;
    var gen := s0.volumes[m].gen;
    var j, k :| Upgrade.Taken(a, m, s1, log2, j, k) && OnlyLate(log2, j, m, gen);
    TakenComposes(a, m, s0, s1, log1, log2, j, k);
    var u: nat :| OnlyDuring(log2, j, m, gen, u);
    TakenIndices(a, m, s1, log2, j, k);
    assert OnlyDuring(log1 + log2, |log1| + j, m, gen, u);
  }

  lemma TakenIndices(a: Archive, m: Name, s0: State, log: seq<ClientWrite>, j: int, k: int)
    requires m in s0.volumes && Upgrade.Taken(a, m, s0, log, j, k)
    ensures 0 <= j <= k <= |log|
  {
  }

  /** Writes to other volumes take nothing away from a backup. */
  lemma BackedUpStays(a: Archive, m: Name, s0: State, log1: seq<ClientWrite>, log2: seq<ClientWrite>)
    requires BackedUp(a, m, s0, log1)
    requires forall p | 0 <= p < |log2| && log2[p].n == m :: log2[p].gen != s0.volumes[m].gen
    ensures BackedUp(a, m, s0, log1 + log2)
  {
    hide Upgrade.Taken;
    var gen := s0.volumes[m].gen;
    var j, k :| Upgrade.Taken(a, m, s0, log1, j, k) && OnlyLate(log1, j, m, gen);
    Upgrade.TakenStays(a, m, s0, log1, log2, j, k);
    var u: nat :| OnlyDuring(log1, j, m, gen, u);
    assert OnlyDuring(log1 + log2, j, m, gen, u);
  }

  /** Clients of `m` wrote, if at all, to the volume it has in `s`. */
  predicate WritesAt(m: Name, s: State, log: seq<ClientWrite>)
  {
    forall i | 0 <= i < |log| && log[i].n == m :: m in s.volumes && log[i].gen == s.volumes[m].gen
  }

  lemma HeldComposes(m: Name, s0: State, s1: State, s: State, log1: seq<ClientWrite>, log2: seq<ClientWrite>)
    requires m in s0.volumes && Held(m, s0, s1, log1) && (m in s1.volumes ==> Held(m, s1, s, log2))
    requires s0.archives <= s1.archives <= s.archives && SameOrNewer(m, s1, s) && WritesAt(m, s1, log2)
    requires s0.volumes[m].gen < s1.nextId
    ensures Held(m, s0, s, log1 + log2)
  {
    hide BackedUp, Upgrade.After, Upgrade.Guarded;
    if Upgrade.OldVolume(m, s0, s1) {
      AfterComposes(m, s0, s1, log1, log2);
      if !Upgrade.OldVolume(m, s0, s) {
        var i :| |s1.archives| <= i < |s.archives| && Upgrade.Guarded(m, s.archives[i])
            && BackedUp(s.archives[i], m, s1, log2);
        BackedUpComposes(s.archives[i], m, s0, s1, log1, log2);
      }
    } else {
      var i :| |s0.archives| <= i < |s1.archives| && Upgrade.Guarded(m, s1.archives[i])
          && BackedUp(s1.archives[i], m, s0, log1);
      BackedUpStays(s1.archives[i], m, s0, log1, log2);
      assert s.archives[i] == s1.archives[i];
    }
  }

  lemma KeepsComposes(m: Name, s0: State, s1: State, s: State, log1: seq<ClientWrite>, log2: seq<ClientWrite>)
    requires Keeps(m, s0, s1, log1) && Keeps(m, s1, s, log2) && WritesAt(m, s1, log2)
    requires s0.archives <= s1.archives <= s.archives && Wf(s0) && s0.nextId <= s1.nextId
    ensures Keeps(m, s0, s, log1 + log2)
  {
    hide Held;
    if m in s0.rows && m in s0.volumes {
      assert s0.volumes[m].gen < s0.nextId;
      HeldComposes(m, s0, s1, s, log1, log2);
    }
  }

  lemma KeepsElsewhere(n: Name, s0: State, s: State, m: Name, log: seq<ClientWrite>)
    requires SameElsewhere(n, s0, s) && m != n && WritesOf(n, s0, log)
    ensures Keeps(m, s0, s, log) && WritesAt(m, s0, log)
  {
    assert m in s0.rows ==> m in s0.rows - {n};
    assert m in s.rows - {n} ==> m in s.rows;
    assert m in s.volumes ==> m in s.volumes - {n};
    if m in s0.volumes {
      assert m in s0.volumes - {n} && s.volumes - {n} == s0.volumes - {n};
      assert (s.volumes - {n})[m] == (s0.volumes - {n})[m];
      Upgrade.AfterNothing(m, s0, log);
    }
  }

  // ---- One command --------------------------------------------------------------------

  /** Only clients of `n` wrote, and to the volume it has in `s`. */
  predicate WritesOf(n: Name, s: State, log: seq<ClientWrite>)
  {
    forall i | 0 <= i < |log| :: log[i].n == n && n in s.volumes && log[i].gen == s.volumes[n].gen
  }

  /** An operation on `n` went from `s0` to `s` while these writes happened: what it may have done to anyone. */
  ghost predicate StepTo(n: Name, destroys: bool, left: bool, log: seq<ClientWrite>, s0: State, s: State)
  {
    && SameElsewhere(n, s0, s) && Wf(s) && WritesOf(n, s0, log)
    && (Tidy(s, n) || left) && (destroys || Keeps(n, s0, s, log))
  }

  /** ... or had got there after the first few of them. */
  ghost predicate Reached(n: Name, destroys: bool, left: bool, log: seq<ClientWrite>, s0: State, s: State)
  {
    exists k :: 0 <= k <= |log| && StepTo(n, destroys, left, log[..k], s0, s)
  }

  ghost predicate Stepped(w: World, n: Name, destroys: bool, left: bool, s0: State, seen0: set<State>, base: nat)
    reads w`st, w`seen, w`writes
  {
    && w.Valid() && base <= |w.writes| && WritesOf(n, s0, w.writes[base..])
    && forall s | s == w.st || (s in w.seen && s !in seen0) :: Reached(n, destroys, left, w.writes[base..], s0, s)
  }

  lemma ReachedQuietly(n: Name, destroys: bool, left: bool, s0: State)
    ensures forall s | StepTo(n, destroys, left, [], s0, s) :: Reached(n, destroys, left, [], s0, s)
  {
    var log: seq<ClientWrite> := [];
    assert log[..0] == [];
  }

  /** Every write in the log was made to this volume during upgrade `u`. */
  predicate MadeDuring(u: nat, n: Name, s0: State, log: seq<ClientWrite>)
  {
    n in s0.volumes && forall i | 0 <= i < |log| :: log[i] == ClientWrite(n, s0.volumes[n].gen, log[i].data, Some(u))
  }

  lemma UpgradePointReached(n: Name, job: Upgrade.Job, s: State, u: nat)
    requires Upgrade.UpgradePoint(n, job, s) && n in s.rows && SameElsewhere(n, job.s0, s) && Wf(s)
    requires MadeDuring(u, n, job.s0, job.log)
    ensures Reached(n, false, false, job.log, job.s0, s)
  {
    hide SameElsewhere, Wf, Upgrade.HonestStatus, Upgrade.Guarded, Upgrade.Taken, Upgrade.After;
    if Upgrade.OldVolume(n, job.s0, s) {
      OldDataReached(n, job.s0, job.log, s, u);
    } else {
      assert s.archives[|job.s0.archives|] == job.a;
      assert job.log[..|job.log|] == job.log;
      var j, k :| Upgrade.Taken(job.a, n, job.s0, job.log, j, k);
      assert OnlyDuring(job.log, j, n, job.s0.volumes[n].gen, u);
      assert BackedUp(job.a, n, job.s0, job.log);
      assert Archived(n, job.s0, s, job.log);
      assert StepTo(n, false, false, job.log[..|job.log|], job.s0, s);
    }
  }

  lemma OldDataReached(n: Name, s0: State, log: seq<ClientWrite>, s: State, u: nat)
    requires Upgrade.OldData(n, s0, log, s) && n in s.rows && SameElsewhere(n, s0, s) && Wf(s)
    requires MadeDuring(u, n, s0, log)
    ensures Reached(n, false, false, log, s0, s)
  {
    var k :| 0 <= k <= |log| && s.volumes[n].data == Upgrade.After(n, s0, log[..k]);
    assert StepTo(n, false, false, log[..k], s0, s);
  }

  /**
    A crash in the middle of an upgrade, followed by a restart that can inspect the instance:
    the old volume is there with the data of its clients, or a checked archive of it is, and
    then the row says error unless the new cluster is complete.
  */
  lemma CrashedUpgradeIsAdmitted(n: Name, job: Upgrade.Job, s: State, skipped: set<Name>)
    requires Upgrade.UpgradePoint(n, job, s) && job.marked && n in s.rows && n !in skipped
    ensures
      var t := Reconcile.Reconciled(s, skipped);
      || Upgrade.OldData(n, job.s0, job.log, t)
      || ( && t.archives == job.s0.archives + [job.a] && Upgrade.Checked(n, job)
           && (t.rows[n].status == Error || (n in t.volumes && Upgrade.Restored(t.volumes[n].data, job.a))))
  {
    Reconcile.ReconcileSettles(s, skipped);
    assert Reconcile.Truthful(s, s.rows[n], Reconcile.Reconciled(s, skipped).rows[n]);
    hide Upgrade.RestoredFor, Upgrade.Checked;
  }

  /** A leak takes a failed Docker call. */
  predicate LeakCounted(before: nat, after: nat, faulty: bool)
  {
    before <= after && (after > before ==> faulty)
  }

  /** What a command has done to its instance when no call failed and no client wrote. */
  ghost predicate Achieves(cmd: Command, host: Host, n: Name, s0: State, s: State)
  {
    match cmd
    case Create(image, shape) =>
      Lifecycle.Verdict(host, s0, n, image, shape) == Created ==> Serving(s, n, s0, image, shape)
    case Destroy => n in s0.rows ==> FreeName(s, n)
    case Change(request) =>
      Reconfigure.Verdict(host, s0, n, request) == Reconfigure.Done ==>
        && n in s0.rows && n in s.rows && s.rows[n].shape == Reconfigure.Merged(s0.rows[n].shape, request)
        && Reconfigure.Serves(s, n, s.rows[n].shape) && s.rows[n].status == Running
    case Switch(image, major) =>
      n in s0.rows && s0.rows[n].shape.group in host.groups
      && ClusterRecreate.Changeable(host, s0, n, Reconfigure.Switched(s0, n, image, major)) ==>
        && n in s.rows && s.rows[n].image == image && s.rows[n].shape == s0.rows[n].shape.(major := major)
        && Reconfigure.Serves(s, n, s.rows[n].shape) && s.rows[n].status == Running
    case UpgradeTo(major, image) =>
      Upgrade.Verdict(host, s0, n, major, image) == Upgrade.Upgraded ==>
        && n in s0.rows && n in s0.volumes && n in s.volumes
        && Upgrade.UpgradedTo(n, s0, s, Upgrade.Snapshot(n, s0.volumes[n].data), image,
            s0.rows[n].shape.(major := major))
        && Upgrade.GivesBack(s0.volumes[n].data, s.volumes[n].data)
  }

  method ApplyUpgrade(w: World, n: Name, major: nat, image: ImageRef)
    requires w.Valid() && n in w.st.rows
    modifies w`st, w`seen, w`hostFaults, w`storeFaults, w`writes
    ensures old(w.writes) <= w.writes && Stepped(w, n, false, false, old(w.st), old(w.seen), |old(w.writes)|)
    ensures w.hostFaults >= old(w.hostFaults) && w.storeFaults >= old(w.storeFaults)
    ensures w.hostFaults == old(w.hostFaults) && w.storeFaults == old(w.storeFaults) && w.writes == old(w.writes) ==>
      Achieves(UpgradeTo(major, image), w.host, n, old(w.st), w.st)
  {
    ghost var s0, seen0, base := w.st, w.seen, |w.writes|;
    var r, job := Upgrade.UpgradeInstance(w, n, major, image);
    ghost var log := w.writes[base..];
    assert n in s0.volumes ==> MadeDuring(base, n, s0, log);
    forall s | s == w.st || (s in w.seen && s !in seen0) ensures Reached(n, false, false, log, s0, s) {
      if !r.NotStarted? {
        UpgradePointReached(n, job, s, base);
      } else if n in s0.volumes {
        if s == w.st { Upgrade.OldDataNow(n, s0, log, s); }
        OldDataReached(n, s0, log, s, base);
      } else {
        assert log[..0] == [];
        assert StepTo(n, false, false, log[..0], s0, s);
      }
    }
  }

  /** An instance in the catalogue has the volume it had. */
  ghost predicate VolumeStays(w: World, n: Name, s0: State, seen0: set<State>)
    reads w`st, w`seen
  {
    n in s0.rows && n in s0.volumes ==>
      forall s | s == w.st || (s in w.seen && s !in seen0) :: Upgrade.OldVolume(n, s0, s)
  }

  method Apply(w: World, n: Name, cmd: Command) returns (ghost left: bool)
    requires w.Valid()
    modifies w
    ensures old(w.writes) <= w.writes && w.hostFaults >= old(w.hostFaults)
    ensures LeakCounted(old(w.leaks), w.leaks, w.hostFaults > old(w.hostFaults))
    ensures Stepped(w, n, cmd.Destroy?, left || !Tidy(old(w.st), n), old(w.st), old(w.seen), |old(w.writes)|)
    ensures left ==> cmd.Create? && w.leaks > old(w.leaks)
    ensures !cmd.UpgradeTo? ==> w.writes == old(w.writes)
    ensures !cmd.UpgradeTo? && !cmd.Destroy? ==> VolumeStays(w, n, old(w.st), old(w.seen))
    ensures w.hostFaults == old(w.hostFaults) && w.storeFaults == old(w.storeFaults) && w.writes == old(w.writes) ==>
      Achieves(cmd, w.host, n, old(w.st), w.st)
  {
    left := false;
    if n in w.st.rows && cmd.UpgradeTo? {
      ApplyUpgrade(w, n, cmd.to, cmd.with);
    } else {
      left := ApplyPlain(w, n, cmd);
      assert w.writes[|old(w.writes)|..] == [];
      ReachedQuietly(n, cmd.Destroy?, left || !Tidy(old(w.st), n), old(w.st));
    }
  }

  /** Every command but the upgrade; none of them touches what a volume holds. */
  method ApplyPlain(w: World, n: Name, cmd: Command) returns (ghost left: bool)
    requires w.Valid() && (cmd.UpgradeTo? ==> n !in w.st.rows)
    modifies w`st, w`seen, w`hostFaults, w`storeFaults, w`leaks
    ensures w.Valid() && w.hostFaults >= old(w.hostFaults)
    ensures LeakCounted(old(w.leaks), w.leaks, w.hostFaults > old(w.hostFaults))
    ensures StepTo(n, cmd.Destroy?, left || !Tidy(old(w.st), n), [], old(w.st), w.st)
    ensures forall s | s in w.seen && s !in old(w.seen) ::
      StepTo(n, cmd.Destroy?, left || !Tidy(old(w.st), n), [], old(w.st), s)
    ensures left ==> cmd.Create? && w.leaks > old(w.leaks)
    ensures !cmd.Destroy? ==> VolumeStays(w, n, old(w.st), old(w.seen))
    ensures w.hostFaults == old(w.hostFaults) && w.storeFaults == old(w.storeFaults) ==>
      Achieves(cmd, w.host, n, old(w.st), w.st)
  {
    left := false;
    if n !in w.st.rows {
      // Everything but create answers "not found".
      if cmd.Create? {
        var _, left' := CreateInstance(w, n, cmd.image, cmd.shape);
        left := left' && w.leaks > old(w.leaks);
      }
      return;
    }
    match cmd
    case Create(_, _) =>                   // "already exists"
    case Destroy =>
      var _ := DestroyInstance(w, n);
    case Change(request) =>
      var _ := Reconfigure.ReconfigureInstance(w, n, request);
    case Switch(image, major) =>
      var _ := Reconfigure.RecreateOnImage(w, n, image, major);
  }

  // ---- Whole runs ---------------------------------------------------------------------

  /**
    A state reached from `s0` while these writes happened: only the names in `dirty` may hold
    a container or volume without a row, and only the instances in `destroyed` may have lost
    row or data.
  */
  ghost predicate Safe(s0: State, s: State, dirty: set<Name>, destroyed: set<Name>, log: seq<ClientWrite>)
  {
    && Wf(s0) && Wf(s) && s0.archives <= s.archives && s0.nextId <= s.nextId
    && (forall m :: m in dirty || Tidy(s, m))
    && (forall m :: m in destroyed || Keeps(m, s0, s, log))
  }

  lemma SafeStep(s0: State, s1: State, s: State, n: Name, destroys: bool, left: bool, dirty: set<Name>,
      destroyed: set<Name>, log1: seq<ClientWrite>, log2: seq<ClientWrite>)
    requires Safe(s0, s1, dirty, destroyed, log1) && StepTo(n, destroys, left || !Tidy(s1, n), log2, s1, s)
    ensures Safe(s0, s, if left then dirty + {n} else dirty, if destroys then destroyed + {n} else destroyed,
        log1 + log2)
  {
    hide Keeps;
    forall m ensures (m == n && left) || m in dirty || Tidy(s, m) {
      if m != n { TidyElsewhere(n, s1, s, m); }
    }
    forall m ensures (m == n && destroys) || m in destroyed || Keeps(m, s0, s, log1 + log2) {
      if m != n { KeepsElsewhere(n, s1, s, m, log2); }
      if Keeps(m, s0, s1, log1) && Keeps(m, s1, s, log2) { KeepsComposes(m, s0, s1, s, log1, log2); }
    }
  }

  lemma SafeReconcile(s0: State, s1: State, s: State, dirty: set<Name>, destroyed: set<Name>, log: seq<ClientWrite>)
    requires Safe(s0, s1, dirty, destroyed, log) && Reconcile.PartlyReconciled(s1, s) && Wf(s)
    ensures Safe(s0, s, dirty, destroyed, log)
  {
    forall m ensures m in dirty || Tidy(s, m) {
      assert Tidy(s1, m) ==> Tidy(s, m);
    }
    forall m ensures m in destroyed || Keeps(m, s0, s, log) {
      assert Keeps(m, s0, s1, log) ==> Keeps(m, s0, s, log);
    }
  }

  // ---- What one event does ------------------------------------------------------------

  predicate Destroys(e: Event, m: Name)
  {
    e.Operate? && e.cmd.Destroy? && e.n == m
  }

  predicate Upgrades(e: Event, m: Name)
  {
    e.Operate? && e.cmd.UpgradeTo? && e.n == m
  }

  /** What any event may do to any instance; only an upgrade or a destroy removes a volume. */
  ghost predicate PassedFor(m: Name, e: Event, s1: State, s: State, log: seq<ClientWrite>)
  {
    && WritesAt(m, s1, log) && (Destroys(e, m) || Keeps(m, s1, s, log))
    && (m in s1.rows && m in s1.volumes ==> Upgrade.OldVolume(m, s1, s) || Destroys(e, m) || Upgrades(e, m))
  }

  ghost predicate Passed(e: Event, s1: State, s: State, log: seq<ClientWrite>)
  {
    && Wf(s1) && Wf(s) && s1.archives <= s.archives && s1.nextId <= s.nextId
    && forall m :: PassedFor(m, e, s1, s, log)
  }

  lemma NothingPassed(e: Event, s: State)
    requires Wf(s)
    ensures Passed(e, s, s, [])
  {
  }

  lemma StepPasses(n: Name, cmd: Command, left: bool, s1: State, s: State, log: seq<ClientWrite>)
    requires Wf(s1) && StepTo(n, cmd.Destroy?, left, log, s1, s)
    requires n in s1.rows && n in s1.volumes && !cmd.Destroy? && !cmd.UpgradeTo? ==> Upgrade.OldVolume(n, s1, s)
    ensures Passed(Operate(n, cmd), s1, s, log)
  {
    hide Keeps, Wf;
    forall m ensures PassedFor(m, Operate(n, cmd), s1, s, log) {
      if m != n {
        KeepsElsewhere(n, s1, s, m, log);
        if m in s1.volumes { VolumeElsewhere(n, s1, s, m); }
      }
    }
  }

  lemma VolumeElsewhere(n: Name, s1: State, s: State, m: Name)
    requires SameElsewhere(n, s1, s) && m != n && m in s1.volumes
    ensures Upgrade.OldVolume(m, s1, s)
  {
    assert m in s1.volumes - {n} && s.volumes - {n} == s1.volumes - {n};
    assert (s.volumes - {n})[m] == (s1.volumes - {n})[m];
  }

  lemma ServePasses(n: Name, data: Cluster, s1: State, s: State, log: seq<ClientWrite>)
    requires Wf(s1) && StepTo(n, false, false, log, s1, s) && (n in s1.volumes ==> Upgrade.OldVolume(n, s1, s))
    ensures Passed(Serve(n, data), s1, s, log)
  {
    hide Keeps, Wf;
    forall m ensures PassedFor(m, Serve(n, data), s1, s, log) {
      if m != n {
        KeepsElsewhere(n, s1, s, m, log);
        if m in s1.volumes { VolumeElsewhere(n, s1, s, m); }
      }
    }
  }

  lemma ReconcilePasses(s1: State, s: State)
    requires Wf(s1) && Wf(s) && Reconcile.PartlyReconciled(s1, s)
    ensures Passed(Startup, s1, s, [])
  {
  }

  // ---- The upgrade that removed a volume ----------------------------------------------

  /** A state between two events, and how many client writes the log had by then. */
  datatype Point = Point(s: State, at: int)

  /** The states of a run of these events, with the log of client writes. */
  ghost predicate Traces(events: seq<Event>, trace: seq<Point>, log: seq<ClientWrite>)
  {
    && |trace| == |events| + 1 && Wf(trace[0].s) && trace[0].at == 0 && trace[|events|].at == |log|
    && (forall i | 0 <= i < |events| :: Leg(events, trace, log, i))
  }

  ghost predicate Leg(events: seq<Event>, trace: seq<Point>, log: seq<ClientWrite>, i: nat)
    requires i < |events| && |trace| == |events| + 1
  {
    && 0 <= trace[i].at <= trace[i + 1].at <= |log|
    && Passed(events[i], trace[i].s, trace[i + 1].s, log[trace[i].at..trace[i + 1].at])
  }

  lemma TraceGrows(events: seq<Event>, trace: seq<Point>, log: seq<ClientWrite>, e: Event, s: State,
      more: seq<ClientWrite>)
    requires Traces(events, trace, log) && Passed(e, trace[|events|].s, s, more)
    ensures Traces(events + [e], trace + [Point(s, |log| + |more|)], log + more)
  {
    hide Passed;
    var events', trace', log' := events + [e], trace + [Point(s, |log| + |more|)], log + more;
    forall i | 0 <= i < |events'| ensures Leg(events', trace', log', i) {
      if i < |events| {
        assert Leg(events, trace, log, i);
        assert log'[trace[i].at..trace[i + 1].at] == log[trace[i].at..trace[i + 1].at];
      } else {
        assert log'[|log|..|log| + |more|] == more;
      }
    }
  }

  /**
    Event `e` is the upgrade that removed the volume `m` began with.  Right before it the volume
    held everything written so far; the archive it left behind was taken while it ran, and
    whatever was written to that volume later was written while it ran, too.
  */
  ghost predicate RemovedBy(m: Name, events: seq<Event>, trace: seq<Point>, log: seq<ClientWrite>, e: nat, end: nat)
    requires |trace| == |events| + 1 && m in trace[0].s.volumes && e < end <= |events|
  {
    var s0, before, after := trace[0].s, trace[e], trace[e + 1];
    && Upgrades(events[e], m) && 0 <= before.at <= after.at <= |log|
    && Upgrade.OldVolume(m, s0, before.s) && before.s.volumes[m].data == Upgrade.After(m, s0, log[..before.at])
    && !Upgrade.OldVolume(m, s0, after.s) && after.s.archives <= trace[end].s.archives
    && LeftArchive(m, s0, before, after, log)
    && (forall i | after.at <= i < |log| && i < trace[end].at && log[i].n == m :: log[i].gen != s0.volumes[m].gen)
  }

  ghost predicate LeftArchive(m: Name, s0: State, before: Point, after: Point, log: seq<ClientWrite>)
    requires m in s0.volumes
  {
    exists i :: |before.s.archives| <= i < |after.s.archives| && TakenWithin(m, s0, before, after, log, i)
  }

  ghost predicate TakenWithin(m: Name, s0: State, before: Point, after: Point, log: seq<ClientWrite>, i: nat)
    requires m in s0.volumes && i < |after.s.archives|
  {
    var a := after.s.archives[i];
    Upgrade.Guarded(m, a) && exists j, k :: before.at <= j && k <= after.at && Upgrade.Taken(a, m, s0, log, j, k)
  }

  /** The volume is still the one `m` began with and holds all that was written, or one upgrade removed it. */
  ghost predicate Located(m: Name, events: seq<Event>, trace: seq<Point>, log: seq<ClientWrite>, end: nat)
    requires |trace| == |events| + 1 && m in trace[0].s.volumes && end <= |events| && 0 <= trace[end].at <= |log|
  {
    var s0, now := trace[0].s, trace[end];
    if Upgrade.OldVolume(m, s0, now.s)
    then now.s.volumes[m].data == Upgrade.After(m, s0, log[..now.at])
    else exists e :: 0 <= e < end && RemovedBy(m, events, trace, log, e, end)
  }

  /** Where the data of every instance is that no event destroys, at every point of a run. */
  lemma {:induction false} LocatedAt(m: Name, events: seq<Event>, trace: seq<Point>, log: seq<ClientWrite>, end: nat)
    requires Traces(events, trace, log) && m in trace[0].s.rows && m in trace[0].s.volumes && end <= |events|
    requires forall i | 0 <= i < end :: !Destroys(events[i], m)
    ensures 0 <= trace[end].at <= |log| && m in trace[end].s.rows && trace[0].s.volumes[m].gen < trace[end].s.nextId
    ensures Located(m, events, trace, log, end)
    decreases end
  {
    if end == 0 {
      assert log[..0] == [];
    } else {
      LocatedAt(m, events, trace, log, end - 1);
      LocatedNext(m, events, trace, log, end - 1);
    }
  }

  /** The same holds from any later point on, so of every instance from the moment it is complete. */
  lemma LocatedSince(m: Name, events: seq<Event>, trace: seq<Point>, log: seq<ClientWrite>, b: nat)
    requires Traces(events, trace, log) && b <= |events| && m in trace[b].s.rows && m in trace[b].s.volumes
    requires forall i | b <= i < |events| :: !Destroys(events[i], m)
    ensures 0 <= trace[b].at <= |log|
    ensures Located(m, events[b..], Tail(trace, b), log[trace[b].at..], |events| - b)
  {
    TailTraces(events, trace, log, b);
    LocatedAt(m, events[b..], Tail(trace, b), log[trace[b].at..], |events| - b);
  }

  /** The trace from event `b` on, its writes counted from there. */
  function Tail(trace: seq<Point>, b: nat): (r: seq<Point>)
    requires b <= |trace|
    ensures |r| == |trace| - b
  {
    seq(|trace| - b, i requires 0 <= i < |trace| - b => Point(trace[b + i].s, trace[b + i].at - trace[b].at))
  }

  lemma TailTraces(events: seq<Event>, trace: seq<Point>, log: seq<ClientWrite>, b: nat)
    requires Traces(events, trace, log) && b <= |events|
    ensures 0 <= trace[b].at <= |log| && Traces(events[b..], Tail(trace, b), log[trace[b].at..])
  {
    hide Passed, Wf;
    PointsOrdered(events, trace, log, b);
    var events', trace', log' := events[b..], Tail(trace, b), log[trace[b].at..];
    forall i | 0 <= i < |events'| ensures Leg(events', trace', log', i) {
      PointsOrdered(events, trace, log, b + i);
      assert Leg(events, trace, log, b + i);
      assert log'[trace'[i].at..trace'[i + 1].at] == log[trace[b + i].at..trace[b + i + 1].at];
    }
  }

  lemma {:induction false} PointsOrdered(events: seq<Event>, trace: seq<Point>, log: seq<ClientWrite>, i: nat)
    requires Traces(events, trace, log) && i <= |events|
    ensures 0 <= trace[i].at <= |log| && Wf(trace[i].s)
    ensures forall b | 0 <= b <= i :: trace[b].at <= trace[i].at
  {
    if i > 0 {
      PointsOrdered(events, trace, log, i - 1);
      assert Leg(events, trace, log, i - 1);
    }
  }

  lemma LocatedNext(m: Name, events: seq<Event>, trace: seq<Point>, log: seq<ClientWrite>, i: nat)
    requires |trace| == |events| + 1 && i < |events| && Leg(events, trace, log, i)
    requires m in trace[0].s.volumes && m in trace[i].s.rows && trace[0].s.volumes[m].gen < trace[i].s.nextId
    requires Located(m, events, trace, log, i) && !Destroys(events[i], m)
    ensures m in trace[i + 1].s.rows && trace[0].s.volumes[m].gen < trace[i + 1].s.nextId
    ensures Located(m, events, trace, log, i + 1)
  {
    hide Upgrade.After, RemovedBy, Held;
    var s0, s1, s, seg := trace[0].s, trace[i].s, trace[i + 1].s, log[trace[i].at..trace[i + 1].at];
    assert PassedFor(m, events[i], s1, s, seg);
    if Upgrade.OldVolume(m, s0, s1) {
      if Upgrade.OldVolume(m, s0, s) {
        StillThere(m, s0, s1, s, log, trace[i].at, trace[i + 1].at);
      } else {
        JustRemoved(m, events, trace, log, i);
      }
    } else {
      var e :| 0 <= e < i && RemovedBy(m, events, trace, log, e, i);
      RemovedStays(m, events, trace, log, e, i);
    }
  }

  lemma StillThere(m: Name, s0: State, s1: State, s: State, log: seq<ClientWrite>, p: nat, q: nat)
    requires p <= q <= |log| && Upgrade.OldVolume(m, s0, s1) && Upgrade.OldVolume(m, s0, s)
    requires s1.volumes[m].data == Upgrade.After(m, s0, log[..p]) && Held(m, s1, s, log[p..q])
    ensures s.volumes[m].data == Upgrade.After(m, s0, log[..q])
  {
    AfterComposes(m, s0, s1, log[..p], log[p..q]);
    assert log[..p] + log[p..q] == log[..q];
  }

  lemma RemovedStays(m: Name, events: seq<Event>, trace: seq<Point>, log: seq<ClientWrite>, e: nat, i: nat)
    requires |trace| == |events| + 1 && e < i < |events| && m in trace[0].s.volumes
    requires RemovedBy(m, events, trace, log, e, i) && Leg(events, trace, log, i)
    requires !Upgrade.OldVolume(m, trace[0].s, trace[i].s)
    ensures RemovedBy(m, events, trace, log, e, i + 1)
  {
    hide LeftArchive;
    var seg := log[trace[i].at..trace[i + 1].at];
    assert PassedFor(m, events[i], trace[i].s, trace[i + 1].s, seg);
    forall x | trace[e + 1].at <= x < trace[i + 1].at && log[x].n == m ensures log[x].gen != trace[0].s.volumes[m].gen {
      if trace[i].at <= x { assert seg[x - trace[i].at] == log[x]; }
    }
  }

  lemma JustRemoved(m: Name, events: seq<Event>, trace: seq<Point>, log: seq<ClientWrite>, i: nat)
    requires |trace| == |events| + 1 && i < |events| && Leg(events, trace, log, i)
    requires m in trace[0].s.volumes && m in trace[i].s.rows && !Destroys(events[i], m)
    requires Upgrade.OldVolume(m, trace[0].s, trace[i].s) && !Upgrade.OldVolume(m, trace[0].s, trace[i + 1].s)
    requires trace[i].s.volumes[m].data == Upgrade.After(m, trace[0].s, log[..trace[i].at])
    ensures RemovedBy(m, events, trace, log, i, i + 1)
  {
    hide Upgrade.After, Upgrade.Taken, Upgrade.Guarded;
    var s0, before, after := trace[0].s, trace[i], trace[i + 1];
    var seg := log[before.at..after.at];
    assert PassedFor(m, events[i], before.s, after.s, seg);
    var x :| |before.s.archives| <= x < |after.s.archives| && Upgrade.Guarded(m, after.s.archives[x])
        && BackedUp(after.s.archives[x], m, before.s, seg);
    var a := after.s.archives[x];
    var j, k :| Upgrade.Taken(a, m, before.s, seg, j, k) && OnlyLate(seg, j, m, s0.volumes[m].gen);
    TakenIndices(a, m, before.s, seg, j, k);
    TakenComposes(a, m, s0, before.s, log[..before.at], seg, j, k);
    Upgrade.TakenStays(a, m, s0, log[..before.at] + seg, log[after.at..], before.at + j, before.at + k);
    assert log[..before.at] + seg + log[after.at..] == log;
    assert TakenWithin(m, s0, before, after, log, x);
  }

  /** The process lives on, or dies at some crash point and leaves that state behind. */
  method Survive(w: World)
    requires w.Valid() && forall s | s in w.seen :: Wf(s)
    modifies w`st, w`seen
    ensures w.Valid() && w.st in old(w.seen) && w.seen == {w.st}
  {
    var s :| s in w.seen;
    w.st, w.seen := s, {s};
  }

  method Start(w: World, ghost s0: State, ghost dirty: set<Name>, ghost destroyed: set<Name>, ghost base: nat)
    requires w.Valid() && w.seen == {w.st} && base <= |w.writes| && Safe(s0, w.st, dirty, destroyed, w.writes[base..])
    modifies w`st, w`seen, w`hostFaults, w`storeFaults
    ensures w.Valid() && w.seen == {w.st} && Safe(s0, w.st, dirty, destroyed, w.writes[base..])
    ensures w.hostFaults >= old(w.hostFaults) && Passed(Startup, old(w.st), w.st, [])
  {
    ghost var s1 := w.st;
    ghost var skipped := Reconcile.ReconcileInstances(w);
    forall s | s in w.seen ensures Safe(s0, s, dirty, destroyed, w.writes[base..]) {
      if s != s1 { SafeReconcile(s0, s1, s, dirty, destroyed, w.writes[base..]); }
    }
    Survive(w);
    if w.st != s1 { ReconcilePasses(s1, w.st); } else { NothingPassed(Startup, s1); }
  }

  /** A client of a running instance changes its data between operations. */
  method ServeClient(w: World, n: Name, data: Cluster, ghost s0: State, ghost dirty: set<Name>,
      ghost destroyed: set<Name>, ghost base: nat)
    requires w.Valid() && w.seen == {w.st} && base <= |w.writes| && Safe(s0, w.st, dirty, destroyed, w.writes[base..])
    modifies w`st, w`seen, w`writes
    ensures w.Valid() && w.seen == {w.st} && GrownBy({n}, old(w.writes), w.writes)
    ensures Safe(s0, w.st, dirty, destroyed, w.writes[base..])
    ensures Passed(Serve(n, data), old(w.st), w.st, w.writes[|old(w.writes)|..])
  {
    NothingPassed(Serve(n, data), w.st);
    if n !in w.st.rows || n !in w.st.volumes { return; }
    var serving := false;
    if id :| id in w.st.containers && Upgrade.IsUp(w.st, n, id) { serving := true; }
    if !serving { return; }
    ghost var s1, seen1, log1, now := w.st, w.seen, w.writes[base..], |w.writes|;
    Upgrade.Begins(w, n);
    hide On, Wf, Safe, Passed, Upgrade.Intact;
    Upgrade.LogWrite(w, n, data, None, s1, seen1, now);
    ghost var x := ClientWrite(n, s1.volumes[n].gen, data, None);
    assert w.writes[base..] == log1 + [x];
    ServedStep(w, n, s1, seen1, x);
    SafeStep(s0, s1, w.st, n, false, false, dirty, destroyed, log1, [x]);
    assert w.writes[now..] == [x];
    ServePasses(n, data, s1, w.st, [x]);
    w.seen := {w.st};
  }

  /** The log has grown, by writes of clients of these instances only. */
  predicate GrownBy(names: set<Name>, log0: seq<ClientWrite>, log: seq<ClientWrite>)
  {
    log0 <= log && forall i | |log0| <= i < |log| :: log[i].n in names
  }

  lemma PrefixOf(names: set<Name>, log0: seq<ClientWrite>, log: seq<ClientWrite>)
    requires GrownBy(names, log0, log)
    ensures log0 <= log
  {
  }

  lemma NothingGrown(names: set<Name>, log: seq<ClientWrite>)
    ensures GrownBy(names, log, log)
  {
  }

  lemma Grown(names: set<Name>, log0: seq<ClientWrite>, log: seq<ClientWrite>, base: nat)
    requires GrownBy(names, log0, log) && base <= |log0|
    ensures |log0| <= |log| && log[base..] == log0[base..] + log[|log0|..]
  {
  }

  lemma GrownOn(names: set<Name>, log0: seq<ClientWrite>, log1: seq<ClientWrite>, more: set<Name>,
      log: seq<ClientWrite>)
    requires GrownBy(names, log0, log1) && GrownBy(more, log1, log) && more <= names
    ensures GrownBy(names, log0, log)
  {
  }

  /** The state a crash left behind is safe; whatever clients wrote after it has not happened. */
  lemma Landed(s0: State, s1: State, s: State, n: Name, cmd: Command, left: bool, dirty: set<Name>,
      destroyed: set<Name>, log1: seq<ClientWrite>, log2: seq<ClientWrite>) returns (k: nat)
    requires Safe(s0, s1, dirty, destroyed, log1)
    requires s == s1 || Reached(n, cmd.Destroy?, left || !Tidy(s1, n), log2, s1, s)
    requires n in s1.rows && n in s1.volumes && !cmd.UpgradeTo? && !cmd.Destroy? ==> Upgrade.OldVolume(n, s1, s)
    ensures k <= |log2| && Passed(Operate(n, cmd), s1, s, log2[..k])
    ensures Safe(s0, s, if left then dirty + {n} else dirty, if cmd.Destroy? then destroyed + {n} else destroyed,
        log1 + log2[..k])
  {
    hide Passed, StepTo;
    if s == s1 {
      k := 0;
      assert log1 + log2[..0] == log1 && log2[..0] == [];
      NothingPassed(Operate(n, cmd), s);
    } else {
      k :| 0 <= k <= |log2| && StepTo(n, cmd.Destroy?, left || !Tidy(s1, n), log2[..k], s1, s);
      SafeStep(s0, s1, s, n, cmd.Destroy?, left, dirty, destroyed, log1, log2[..k]);
      StepPasses(n, cmd, left || !Tidy(s1, n), s1, s, log2[..k]);
    }
  }

  lemma ServedStep(w: World, n: Name, s1: State, seen1: set<State>, x: ClientWrite)
    requires On(w, n, s1, seen1) && n in s1.volumes && w.st == WithData(s1, n, x.data)
    requires x == ClientWrite(n, s1.volumes[n].gen, x.data, None)
    ensures StepTo(n, false, false, [x], s1, w.st) && w.Valid()
  {
    Upgrade.AfterWrite(n, s1, [], x);
    assert [] + [x] == [x];
  }

  method OperateOn(w: World, n: Name, cmd: Command, ghost s0: State, ghost dirty0: set<Name>,
      ghost destroyed0: set<Name>, ghost base: nat)
    returns (ghost dirty: set<Name>, ghost destroyed: set<Name>)
    requires w.Valid() && w.seen == {w.st} && base <= |w.writes| && Safe(s0, w.st, dirty0, destroyed0, w.writes[base..])
    modifies w
    ensures w.Valid() && w.seen == {w.st} && GrownBy(if cmd.UpgradeTo? then {n} else {}, old(w.writes), w.writes)
    ensures Safe(s0, w.st, dirty, destroyed, w.writes[base..])
    ensures Passed(Operate(n, cmd), old(w.st), w.st, w.writes[|old(w.writes)|..])
    ensures dirty == dirty0 || (cmd.Create? && dirty == dirty0 + {n} && w.leaks > old(w.leaks))
    ensures destroyed == if cmd.Destroy? then destroyed0 + {n} else destroyed0
    ensures w.hostFaults >= old(w.hostFaults)
    ensures LeakCounted(old(w.leaks), w.leaks, w.hostFaults > old(w.hostFaults))
  {
    hide StepTo, Reached, Safe, Wf, Tidy, WritesOf, Passed;
    ghost var s1, log1, now := w.st, w.writes[base..], |w.writes|;
    ghost var left := Apply(w, n, cmd);
    dirty := if left then dirty0 + {n} else dirty0;
    destroyed := if cmd.Destroy? then destroyed0 + {n} else destroyed0;
    ghost var log2 := w.writes[now..];
    forall s | s in w.seen && s != s1 ensures Wf(s) {
      ReachedIsWf(n, cmd.Destroy?, left || !Tidy(s1, n), log2, s1, s);
    }
    Survive(w);
    ghost var k := Landed(s0, s1, w.st, n, cmd, left, dirty0, destroyed0, log1, log2);
    Truncated(old(w.writes), w.writes, base, k);
    w.writes := w.writes[..now + k];
    WrittenUnder(n, s1, old(w.writes), log2, k, cmd.UpgradeTo?);
  }

  lemma Truncated(log0: seq<ClientWrite>, log: seq<ClientWrite>, base: nat, k: nat)
    requires log0 <= log && base <= |log0| && k <= |log| - |log0|
    ensures
      var cut, more := log[..|log0| + k], log[|log0|..][..k];
      cut == log0 + more && cut[base..] == log0[base..] + more && cut[|log0|..] == more
  {
  }

  lemma WrittenUnder(n: Name, s1: State, log0: seq<ClientWrite>, log2: seq<ClientWrite>, k: nat, upgrade: bool)
    requires k <= |log2| && WritesOf(n, s1, log2) && (!upgrade ==> log2 == [])
    ensures GrownBy(if upgrade then {n} else {}, log0, log0 + log2[..k])
  {
  }

  lemma ReachedIsWf(n: Name, destroys: bool, left: bool, log: seq<ClientWrite>, s0: State, s: State)
    requires Reached(n, destroys, left, log, s0, s)
    ensures Wf(s)
  {
  }

  /** During this event clients may write. */
  predicate Writes(e: Event)
  {
    e.Serve? || (e.Operate? && e.cmd.UpgradeTo?)
  }

  /** One event of a run. */
  method Handle(w: World, e: Event, ghost s0: State, ghost dirty0: set<Name>, ghost destroyed0: set<Name>,
      ghost base: nat)
    returns (ghost dirty: set<Name>, ghost destroyed: set<Name>)
    requires w.Valid() && w.seen == {w.st} && base <= |w.writes| && Safe(s0, w.st, dirty0, destroyed0, w.writes[base..])
    modifies w
    ensures w.Valid() && w.seen == {w.st} && GrownBy(if Writes(e) then {e.n} else {}, old(w.writes), w.writes)
    ensures Safe(s0, w.st, dirty, destroyed, w.writes[base..])
    ensures Passed(e, old(w.st), w.st, w.writes[|old(w.writes)|..])
    ensures dirty == dirty0 || (e.Operate? && e.cmd.Create? && dirty == dirty0 + {e.n} && w.leaks > old(w.leaks))
    ensures destroyed == if e.Operate? && e.cmd.Destroy? then destroyed0 + {e.n} else destroyed0
    ensures w.hostFaults >= old(w.hostFaults)
    ensures LeakCounted(old(w.leaks), w.leaks, w.hostFaults > old(w.hostFaults))
  {
    hide Safe, Wf, Passed;
    dirty, destroyed := dirty0, destroyed0;
    match e
    case Startup =>
      Start(w, s0, dirty, destroyed, base);
      assert w.writes[|old(w.writes)|..] == [];
    case Serve(n, data) => ServeClient(w, n, data, s0, dirty, destroyed, base);
    case Operate(n, cmd) =>
      dirty, destroyed := OperateOn(w, n, cmd, s0, dirty, destroyed, base);
  }

  /** The instance is complete in `s0` and no event asks for its destruction. */
  predicate Endures(m: Name, s0: State, events: seq<Event>)
  {
    m in s0.rows && m in s0.volumes && forall i | 0 <= i < |events| :: !Destroys(events[i], m)
  }

  /** The names clients may write under during these events. */
  ghost function WrittenIn(events: seq<Event>): set<Name>
  {
    set e | e in events && Writes(e) :: e.n
  }

  ghost function CreatedIn(events: seq<Event>): set<Name>
  {
    set e | e in events && e.Operate? && e.cmd.Create? :: e.n
  }

  ghost function DestroyedIn(events: seq<Event>): set<Name>
  {
    set e | e in events && e.Operate? && e.cmd.Destroy? :: e.n
  }

  lemma NamedIn(events: seq<Event>, e: Event)
    requires e in events
    ensures Writes(e) ==> e.n in WrittenIn(events)
    ensures e.Operate? && e.cmd.Create? ==> e.n in CreatedIn(events)
    ensures e.Operate? && e.cmd.Destroy? ==> e.n in DestroyedIn(events)
  {
  }

  method Run(w: World, events: seq<Event>)
    returns (ghost dirty: set<Name>, ghost destroyed: set<Name>, ghost trace: seq<Point>)
    requires w.Valid() && forall m :: Tidy(w.st, m)
    modifies w
    // Rows, containers, volumes and data at the end of any run.
    ensures w.Valid() && old(w.writes) <= w.writes
    ensures Safe(old(w.st), w.st, dirty, destroyed, w.writes[|old(w.writes)|..])
    // Every instance that is not destroyed has the volume it began with, holding all its clients
    // wrote, or the archive of the one upgrade that removed it.
    ensures Traces(events, trace, w.writes[|old(w.writes)|..])
    ensures trace[0].s == old(w.st) && trace[|events|].s == w.st
    ensures forall m | Endures(m, old(w.st), events) ::
      Located(m, events, trace, w.writes[|old(w.writes)|..], |events|)
    // An instance nobody wrote to still has exactly its data, in its volume or in an archive.
    ensures GrownBy(WrittenIn(events), old(w.writes), w.writes)
    ensures forall m | m in old(w.st).rows && m in old(w.st).volumes && m !in destroyed
        && Upgrade.NotWritten(m, w.writes[|old(w.writes)|..]) ::
      HeldExactly(m, old(w.st), w.st)
    ensures dirty <= CreatedIn(events) && destroyed <= DestroyedIn(events)
    // No more names than failed creates that could not clear up after themselves; none without a leak.
    ensures w.leaks >= old(w.leaks) && |dirty| <= w.leaks - old(w.leaks)
    ensures w.hostFaults >= old(w.hostFaults) && (w.hostFaults == old(w.hostFaults) ==> w.leaks == old(w.leaks))
  {
    hide WrittenIn, CreatedIn, DestroyedIn, GrownBy, Safe, Wf, Tidy, Passed, Traces, Located, Endures, HeldExactly;
    hide Upgrade.NotWritten;
    ghost var s0, base := w.st, |w.writes|;
    w.seen := {w.st};
    dirty, destroyed := {}, {};
    Untouched(s0);
    assert w.writes[base..] == [];
    Legless(s0);
    trace := [Point(s0, 0)];
    assert events[..0] == [];
    NothingGrown(WrittenIn(events), w.writes);
    for i := 0 to |events|
      invariant w.Valid() && w.seen == {w.st} && GrownBy(WrittenIn(events), old(w.writes), w.writes)
      invariant base <= |w.writes|
      invariant Safe(s0, w.st, dirty, destroyed, w.writes[base..])
      invariant |trace| == i + 1 && trace[0].s == s0 && trace[i].s == w.st
      invariant Traces(events[..i], trace, w.writes[base..])
      invariant dirty <= CreatedIn(events)
      invariant destroyed <= DestroyedIn(events)
      invariant w.leaks >= old(w.leaks) && |dirty| <= w.leaks - old(w.leaks)
      invariant w.hostFaults >= old(w.hostFaults)
      invariant w.hostFaults == old(w.hostFaults) ==> w.leaks == old(w.leaks)
    {
      ghost var writes1 := w.writes;
      NamedIn(events, events[i]);
      dirty, destroyed := Handle(w, events[i], s0, dirty, destroyed, base);
      Grown(if Writes(events[i]) then {events[i].n} else {}, writes1, w.writes, base);
      TraceGrows(events[..i], trace, writes1[base..], events[i], w.st, w.writes[|writes1|..]);
      trace := trace + [Point(w.st, |w.writes[base..]|)];
      assert events[..i] + [events[i]] == events[..i + 1];
      GrownOn(WrittenIn(events), old(w.writes), writes1, if Writes(events[i]) then {events[i].n} else {}, w.writes);
    }
    assert events[..|events|] == events;
    Grown(WrittenIn(events), old(w.writes), w.writes, base);
    PrefixOf(WrittenIn(events), old(w.writes), w.writes);
    AllLocated(events, trace, w.writes[base..]);
    AllQuietlyHeld(s0, w.st, dirty, destroyed, w.writes[base..]);
  }

  lemma AllLocated(events: seq<Event>, trace: seq<Point>, log: seq<ClientWrite>)
    requires Traces(events, trace, log)
    ensures forall m | Endures(m, trace[0].s, events) :: Located(m, events, trace, log, |events|)
  {
    hide Located;
    forall m | Endures(m, trace[0].s, events) ensures Located(m, events, trace, log, |events|) {
      LocatedAt(m, events, trace, log, |events|);
    }
  }

  lemma AllQuietlyHeld(s0: State, s: State, dirty: set<Name>, destroyed: set<Name>, log: seq<ClientWrite>)
    requires Safe(s0, s, dirty, destroyed, log)
    ensures forall m | m in s0.rows && m in s0.volumes && m !in destroyed && Upgrade.NotWritten(m, log) ::
      HeldExactly(m, s0, s)
  {
    forall m | m in s0.rows && m in s0.volumes && m !in destroyed && Upgrade.NotWritten(m, log)
      ensures HeldExactly(m, s0, s)
    {
      assert Keeps(m, s0, s, log);
      QuietlyHeld(m, s0, s, log);
    }
  }

  lemma Legless(s0: State)
    requires Wf(s0)
    ensures Traces([], [Point(s0, 0)], [])
  {
  }

  lemma Untouched(s0: State)
    requires Wf(s0) && forall m :: Tidy(s0, m)
    ensures Safe(s0, s0, {}, {}, [])
  {
  }

  /**
    After any run, reconcile and destroy without further faults leave the name free; by
    the contract of `CreateInstance`, a create that follows passes its name and volume
    checks unless those checks themselves fail.
  */
  method RecoverName(w: World, n: Name)
    requires w.Valid() && Tidy(w.st, n)
    modifies w`st, w`seen, w`hostFaults, w`storeFaults
    ensures w.Valid()
    ensures w.hostFaults == old(w.hostFaults) && w.storeFaults == old(w.storeFaults) ==> FreeName(w.st, n)
  {
    ghost var skipped := Reconcile.ReconcileInstances(w);
    assert Tidy(w.st, n);
    var _ := DestroyInstance(w, n);
  }
}
