/**
  Major version upgrade: verified backup, replace the cluster, restore into it
  (internal/operations/rdbms_major_upgrade.go, restore_cluster.go and rdbms_backup.go).

  The instance serves clients until its container is stopped, so its data may change at
  any point up to there.  The field `writes` of the world logs those changes; the contents
  of a volume are a function of that log (`After`), and every archive is tied to it.
*/
module Upgrade {
  import opened Basics
  import opened Deployment
  import opened ClusterRecreate
  import opened InstanceSteps
  import opened Reconfigure
  import Lifecycle

  datatype UpgradeOutcome =
    | NotStarted          // validation or backup failed; the instance still runs
    | Halted              // something after that failed
    | UpgradedUnread      // upgraded, but reading the row back failed
    | Upgraded

  // ---- Data ---------------------------------------------------------------------------

  const Admin := "postgres"

  /** What initdb puts into an empty volume. */
  const FreshCluster: Cluster := map[Admin := Database("c", 0, false)]

  /** The databases a backup lists: those not marked as templates. */
  function Listed(data: Cluster): Cluster
  {
    map db | db in data && !data[db].template :: data[db]
  }

  function Providers(data: Cluster): map<string, string>
  {
    map db | db in data :: data[db].provider
  }

  /** The archive of a cluster that nobody writes to. */
  function Snapshot(n: Name, data: Cluster): Archive
  {
    Archive(n, Listed(data), Providers(Listed(data)))
  }

  /** The checks an archive passes before anything is torn down. */
  predicate Guarded(n: Name, a: Archive)
  {
    a.owner == n && a.metadata != map[] && forall db | db in a.metadata && db != Admin :: a.metadata[db] == "c"
  }

  /** `data` is a fresh cluster into which the databases in `done` were restored from `a`. */
  ghost predicate RestoredFor(data: Cluster, a: Archive, done: set<string>)
  {
    && data.Keys == done + {Admin}
    && data[Admin].provider == "c"
    && (Admin !in done || Admin !in a.dumps ==> data[Admin].content == 0)
    && done <= a.metadata.Keys
    && (forall db | db in data :: !data[db].template)
    && forall db | db in done ::
         && (db != Admin ==> db in a.dumps && data[db].provider == a.metadata[db])
         && (db in a.dumps ==> data[db].content == a.dumps[db].content)
  }

  ghost predicate Restored(data: Cluster, a: Archive)
  {
    RestoredFor(data, a, a.metadata.Keys)
  }

  /**
    What a complete restore of a guarded archive of `last` gives back: every listed database
    but the admin one exactly, the admin one's contents, and no template database; hence
    everything precisely when there was no template database and the admin one was there and
    of the one provider the guard does not check for it.
  */
  ghost predicate GivesBack(last: Cluster, data: Cluster)
  {
    && data.Keys == Listed(last).Keys + {Admin}
    && (forall db | db in last && db != Admin && !last[db].template :: data[db] == last[db])
    && (forall db | db in last && db != Admin && last[db].template :: db !in data)
    && (Admin in last && !last[Admin].template ==> data[Admin].content == last[Admin].content)
    && (data == last <==> Admin in last && last[Admin].provider == "c" && forall db | db in last :: !last[db].template)
  }

  lemma NothingLost(n: Name, last: Cluster, data: Cluster)
    requires Guarded(n, Snapshot(n, last)) && Restored(data, Snapshot(n, last))
    ensures GivesBack(last, data)
  {
    assert forall db | db in last && db != Admin && !last[db].template :: data[db] == last[db];
    if Admin in last && last[Admin].provider == "c" && forall db | db in last :: !last[db].template {
      assert data.Keys == last.Keys;
      assert data[Admin] == last[Admin];
    }
  }

  /** The guard lets an ICU admin database through, and it comes back as a libc one. */
  lemma AdminProviderLost(n: Name)
    ensures
      var last: Cluster := map[Admin := Database("i", 7, false)];
      var data: Cluster := map[Admin := Database("c", 7, false)];
      Guarded(n, Snapshot(n, last)) && Restored(data, Snapshot(n, last)) && data != last
  {
    var last: Cluster := map[Admin := Database("i", 7, false)];
    var data: Cluster := map[Admin := Database("c", 7, false)];
    assert Admin in Snapshot(n, last).metadata && last[Admin] != data[Admin];
  }

  /** A user database marked as a template is in no archive, and passes no check that would miss it. */
  lemma TemplateDatabaseLost(n: Name)
    ensures
      var last: Cluster := map[Admin := Database("c", 0, false), "base" := Database("c", 7, true)];
      Guarded(n, Snapshot(n, last)) && Restored(FreshCluster, Snapshot(n, last)) && "base" !in FreshCluster
  {
    var last: Cluster := map[Admin := Database("c", 0, false), "base" := Database("c", 7, true)];
    assert Listed(last) == FreshCluster && Admin in Snapshot(n, last).metadata;
  }

  // ---- Contents over time -------------------------------------------------------------

  /** The volume the operation found is still there. */
  predicate OldVolume(n: Name, s0: State, s: State)
  {
    n in s0.volumes && n in s.volumes && s.volumes[n].gen == s0.volumes[n].gen
  }

  /** What the volume `n` had in `s0` holds once these writes have happened. */
  function After(n: Name, s0: State, log: seq<ClientWrite>): Cluster
    requires n in s0.volumes
    decreases |log|
  {
    if log == [] then s0.volumes[n].data
    else
      var last := log[|log| - 1];
      if last.n == n && last.gen == s0.volumes[n].gen then last.data else After(n, s0, log[..|log| - 1])
  }

  lemma AfterWrite(n: Name, s0: State, log: seq<ClientWrite>, x: ClientWrite)
    requires n in s0.volumes
    ensures After(n, s0, log + [x]) == if x.n == n && x.gen == s0.volumes[n].gen then x.data else After(n, s0, log)
  {
    assert (log + [x])[..|log|] == log;
  }

  predicate NotWritten(n: Name, log: seq<ClientWrite>)
  {
    forall i | 0 <= i < |log| :: log[i].n != n
  }

  lemma {:induction false} AfterNothing(n: Name, s0: State, log: seq<ClientWrite>)
    requires n in s0.volumes && NotWritten(n, log)
    ensures After(n, s0, log) == s0.volumes[n].data
    decreases |log|
  {
    if log != [] { AfterNothing(n, s0, log[..|log| - 1]); }
  }

  /** One database as it was after the first `p` writes. */
  ghost predicate DumpAt(d: Database, db: string, n: Name, s0: State, log: seq<ClientWrite>, p: int)
    requires n in s0.volumes
  {
    0 <= p <= |log| && db in After(n, s0, log[..p]) && After(n, s0, log[..p])[db] == d
  }

  /** Each dump was taken at a moment of its own, after the first `j` writes and before the `k`-th. */
  ghost predicate DumpedBetween(dumps: Cluster, n: Name, s0: State, log: seq<ClientWrite>, j: int, k: int)
    requires n in s0.volumes
  {
    forall db | db in dumps :: exists p :: j <= p <= k && DumpAt(dumps[db], db, n, s0, log, p)
  }

  /**
    The databases were listed after the first `j` writes, then dumped one after another, and
    the metadata was read after the first `k`.
  */
  ghost predicate Taken(a: Archive, n: Name, s0: State, log: seq<ClientWrite>, j: int, k: int)
    requires n in s0.volumes
  {
    && 0 <= j <= k <= |log| && a.owner == n
    && a.dumps.Keys == Listed(After(n, s0, log[..j])).Keys && DumpedBetween(a.dumps, n, s0, log, j, k)
    && a.metadata == Providers(Listed(After(n, s0, log[..k])))
  }

  /** The archive is a backup of this volume, made while these writes happened. */
  ghost predicate TakenFrom(a: Archive, n: Name, s0: State, log: seq<ClientWrite>)
  {
    n in s0.volumes && exists j, k :: Taken(a, n, s0, log, j, k)
  }

  lemma DumpedGrows(dumps: Cluster, n: Name, s0: State, log: seq<ClientWrite>, more: seq<ClientWrite>, j: int, k: int,
      k': int)
    requires n in s0.volumes && DumpedBetween(dumps, n, s0, log, j, k) && k <= k' && k <= |log|
    ensures DumpedBetween(dumps, n, s0, log + more, j, k')
  {
    forall db | db in dumps ensures exists p :: j <= p <= k' && DumpAt(dumps[db], db, n, s0, log + more, p) {
      var p :| j <= p <= k && DumpAt(dumps[db], db, n, s0, log, p);
      assert (log + more)[..p] == log[..p];
      assert DumpAt(dumps[db], db, n, s0, log + more, p);
    }
  }

  lemma TakenStays(a: Archive, n: Name, s0: State, log: seq<ClientWrite>, more: seq<ClientWrite>, j: int, k: int)
    requires n in s0.volumes && Taken(a, n, s0, log, j, k)
    ensures Taken(a, n, s0, log + more, j, k)
  {
    assert (log + more)[..j] == log[..j] && (log + more)[..k] == log[..k];
    DumpedGrows(a.dumps, n, s0, log, more, j, k, k);
  }

  lemma TakenGrows(a: Archive, n: Name, s0: State, log: seq<ClientWrite>, more: seq<ClientWrite>)
    requires TakenFrom(a, n, s0, log)
    ensures TakenFrom(a, n, s0, log + more)
  {
    var j, k :| Taken(a, n, s0, log, j, k);
    TakenStays(a, n, s0, log, more, j, k);
  }

  /** If nobody wrote, the archive is that of the data the volume always had. */
  lemma TakenQuietly(a: Archive, n: Name, s0: State, log: seq<ClientWrite>)
    requires TakenFrom(a, n, s0, log) && NotWritten(n, log)
    ensures a == Snapshot(n, s0.volumes[n].data)
  {
    hide After, Providers;
    var j, k :| Taken(a, n, s0, log, j, k);
    var data := s0.volumes[n].data;
    AfterNothing(n, s0, log[..j]);
    AfterNothing(n, s0, log[..k]);
    forall db | db in a.dumps ensures db in data && a.dumps[db] == data[db] {
      var p :| j <= p <= k && DumpAt(a.dumps[db], db, n, s0, log, p);
      AfterNothing(n, s0, log[..p]);
    }
    assert a.dumps == Listed(data);
  }

  /** A database with the contents it had at some moment between the `j`-th and the `k`-th write. */
  ghost predicate ContentsBetween(content: int, db: string, n: Name, s0: State, log: seq<ClientWrite>, j: int, k: int)
    requires n in s0.volumes
  {
    exists p, d :: j <= p <= k && DumpAt(d, db, n, s0, log, p) && d.content == content
  }

  /**
    What an upgrade gives back while clients write: the databases that were listed when the
    metadata was read, each with the contents it had when it was dumped.
  */
  ghost predicate RecoveredAt(n: Name, s0: State, log: seq<ClientWrite>, data: Cluster, j: int, k: int)
    requires n in s0.volumes
  {
    && 0 <= j <= k <= |log|
    && data.Keys == Listed(After(n, s0, log[..k])).Keys + {Admin}
    && (forall db | db in Listed(After(n, s0, log[..k])) && db != Admin ::
          && db in Listed(After(n, s0, log[..j])) && data[db].provider == Listed(After(n, s0, log[..k]))[db].provider
          && ContentsBetween(data[db].content, db, n, s0, log, j, k))
    && (Admin in Listed(After(n, s0, log[..j])) && Admin in Listed(After(n, s0, log[..k])) ==>
          ContentsBetween(data[Admin].content, Admin, n, s0, log, j, k))
  }

  ghost predicate Recovered(n: Name, s0: State, log: seq<ClientWrite>, data: Cluster)
  {
    n in s0.volumes && exists j, k :: RecoveredAt(n, s0, log, data, j, k)
  }

  lemma DumpHas(d: Database, db: string, n: Name, s0: State, log: seq<ClientWrite>, j: int, k: int, p: int)
    requires n in s0.volumes && j <= p <= k && DumpAt(d, db, n, s0, log, p)
    ensures ContentsBetween(d.content, db, n, s0, log, j, k)
  {
  }

  lemma RestoredIsRecovered(n: Name, s0: State, log: seq<ClientWrite>, a: Archive, data: Cluster)
    requires TakenFrom(a, n, s0, log) && Restored(data, a)
    ensures Recovered(n, s0, log, data)
  {
    hide After, Listed, ContentsBetween, DumpAt;
    var j, k :| Taken(a, n, s0, log, j, k);
    assert a.metadata.Keys == Listed(After(n, s0, log[..k])).Keys;
    forall db | db in a.metadata && db in a.dumps ensures ContentsBetween(data[db].content, db, n, s0, log, j, k) {
      var p :| j <= p <= k && DumpAt(a.dumps[db], db, n, s0, log, p);
      DumpHas(a.dumps[db], db, n, s0, log, j, k, p);
    }
    assert RecoveredAt(n, s0, log, data, j, k);
  }

  /** The old volume is there, with what it held after some of the writes. */
  ghost predicate OldData(n: Name, s0: State, log: seq<ClientWrite>, s: State)
  {
    OldVolume(n, s0, s) && exists k :: 0 <= k <= |log| && s.volumes[n].data == After(n, s0, log[..k])
  }

  lemma OldDataGrows(n: Name, s0: State, log: seq<ClientWrite>, more: seq<ClientWrite>)
    ensures forall s | OldData(n, s0, log, s) :: OldData(n, s0, log + more, s)
  {
    forall s | OldData(n, s0, log, s) ensures OldData(n, s0, log + more, s) {
      var k :| 0 <= k <= |log| && s.volumes[n].data == After(n, s0, log[..k]);
      assert (log + more)[..k] == log[..k];
    }
  }

  lemma OldDataNow(n: Name, s0: State, log: seq<ClientWrite>, s: State)
    requires OldVolume(n, s0, s) && s.volumes[n].data == After(n, s0, log)
    ensures OldData(n, s0, log, s)
  {
    assert log[..|log|] == log;
  }

  // ---- Crash points -------------------------------------------------------------------

  /**
    An upgrade past its backup: where it began, its archive, whether the row could be
    marked, and all client writes.
  */
  datatype Job = Job(s0: State, seen0: set<State>, a: Archive, marked: bool, log: seq<ClientWrite>)

  /** The row admits that the cluster is not whole, or the cluster is whole. */
  ghost predicate HonestStatus(n: Name, s: State, a: Archive)
  {
    n in s.rows &&
    ( || s.rows[n].status in {Upgrading, Error}
      || (n in s.volumes && Restored(s.volumes[n].data, a) && Serves(s, n, s.rows[n].shape)))
  }

  /** The archive passed every check, and is a backup of this very volume. */
  ghost predicate Checked(n: Name, job: Job)
  {
    Guarded(n, job.a) && TakenFrom(job.a, n, job.s0, job.log)
  }

  /** The old volume is gone for good; what has its name, if anything, was made since. */
  predicate Gone(n: Name, s0: State, s: State)
  {
    !OldVolume(n, s0, s) && (n in s.volumes ==> s.volumes[n].gen >= s0.nextId)
  }

  /** Where the data is: in the volume it always was in, or in a checked archive of it. */
  ghost predicate UpgradePoint(n: Name, job: Job, s: State)
  {
    || (OldData(n, job.s0, job.log, s) && job.s0.archives <= s.archives)
    || ( && Gone(n, job.s0, s) && s.archives == job.s0.archives + [job.a] && Checked(n, job)
         && (job.marked ==> HonestStatus(n, s, job.a)))
  }

  ghost predicate UpgradeAlong(seen: set<State>, n: Name, job: Job)
  {
    forall s | s in seen && s !in job.seen0 :: UpgradePoint(n, job, s)
  }

  ghost predicate Covered(w: World, n: Name, job: Job)
    reads w`st, w`seen
  {
    On(w, n, job.s0, job.seen0) && UpgradeAlong(w.seen, n, job) && UpgradePoint(n, job, w.st)
  }

  /** The volume is still there at every crash point so far, changed by nobody but its clients. */
  ghost predicate Intact(w: World, n: Name, s0: State, seen0: set<State>, base: nat)
    reads w`st, w`seen, w`writes
  {
    && base <= |w.writes| && OldVolume(n, s0, w.st) && w.st.volumes[n].data == After(n, s0, w.writes[base..])
    && forall s | s in w.seen && s !in seen0 :: OldData(n, s0, w.writes[base..], s)
  }

  /**
    The log has grown, by writes of clients of this volume only, all of them during the
    upgrade that began at `base`.
  */
  predicate LogGrows(n: Name, s0: State, base: nat, log0: seq<ClientWrite>, log: seq<ClientWrite>)
  {
    && log0 <= log && n in s0.volumes
    && forall i | |log0| <= i < |log| :: log[i] == ClientWrite(n, s0.volumes[n].gen, log[i].data, Some(base))
  }

  predicate IsUp(s: State, n: Name, id: ContainerId)
  {
    Owns(s, n, id) && s.containers[id].state == Up
  }

  // ---- Steps --------------------------------------------------------------------------

  method Fill(w: World, n: Name, data: Cluster, ghost s0: State, ghost seen0: set<State>)
    requires On(w, n, s0, seen0) && n in w.st.volumes
    modifies w`st, w`seen
    ensures On(w, n, s0, seen0) && w.seen == old(w.seen) + {w.st}
    ensures w.st == WithData(old(w.st), n, data)
  {
    w.WriteData(n, data);
  }

  /** One client's write, and its entry in the log. */
  method LogWrite(w: World, n: Name, data: Cluster, ghost during: Option<nat>, ghost s0: State, ghost seen0: set<State>,
      ghost base: nat)
    requires On(w, n, s0, seen0) && Intact(w, n, s0, seen0, base)
    modifies w`st, w`seen, w`writes
    ensures On(w, n, s0, seen0) && Intact(w, n, s0, seen0, base)
    ensures w.st == WithData(old(w.st), n, data) && old(w.seen) <= w.seen
    ensures w.writes == old(w.writes) + [ClientWrite(n, s0.volumes[n].gen, data, during)]
  {
    hide On;
    ghost var x := ClientWrite(n, s0.volumes[n].gen, data, during);
    ghost var log := w.writes[base..];
    w.writes := w.writes + [x];
    assert w.writes[base..] == log + [x];
    Fill(w, n, data, s0, seen0);
    AfterWrite(n, s0, log, x);
    OldDataGrows(n, s0, log, [x]);
    OldDataNow(n, s0, log + [x], w.st);
    hide OldData, After;
  }

  /** Clients of a running instance change its data however they like. */
  method ClientsWrite(w: World, n: Name, ghost s0: State, ghost seen0: set<State>, ghost base: nat)
    requires On(w, n, s0, seen0) && Intact(w, n, s0, seen0, base)
    modifies w`st, w`seen, w`writes
    ensures On(w, n, s0, seen0) && Intact(w, n, s0, seen0, base)
    ensures w.st == WithData(old(w.st), n, w.st.volumes[n].data) && old(w.seen) <= w.seen
    ensures LogGrows(n, s0, base, old(w.writes), w.writes)
    ensures w.writes != old(w.writes) || w.st != old(w.st) ==> exists id :: IsUp(old(w.st), n, id)
  {
    hide On, After, OldData;
    var serving := false;
    if id :| id in w.st.containers && IsUp(w.st, n, id) { serving := true; }
    var busy, data := *, *;
    assert w.st.volumes[n := w.st.volumes[n]] == w.st.volumes;
    if serving && busy {
      LogWrite(w, n, data, Some(base), s0, seen0, base);
    }
  }

  /** Nothing but what the volume holds may differ. */
  predicate OnlyContents(n: Name, s0: State, s: State)
  {
    n in s0.volumes && n in s.volumes && s == WithData(s0, n, s.volumes[n].data)
  }

  lemma NoDumpsYet(n: Name, s0: State, log: seq<ClientWrite>, j: int, k: int)
    requires n in s0.volumes
    ensures DumpedBetween(map[], n, s0, log, j, k)
  {
  }

  /** One more dump, taken now. */
  lemma DumpNow(dumps: Cluster, n: Name, s0: State, log0: seq<ClientWrite>, log: seq<ClientWrite>, j: int, db: string)
    requires n in s0.volumes && log0 <= log && j <= |log0| && DumpedBetween(dumps, n, s0, log0, j, |log0|)
    requires db in After(n, s0, log)
    ensures DumpedBetween(dumps[db := After(n, s0, log)[db]], n, s0, log, j, |log|)
  {
    var more := log[|log0|..];
    assert log0 + more == log;
    DumpedGrows(dumps, n, s0, log0, more, j, |log0|, |log|);
    assert log[..|log|] == log;
    assert DumpAt(After(n, s0, log)[db], db, n, s0, log, |log|);
  }

  /** List the databases and dump one after another; clients keep writing in between. */
  method DumpDatabases(w: World, n: Name, ghost s0: State, ghost seen0: set<State>, ghost base: nat)
    returns (dumps: Cluster, ok: bool)
    requires On(w, n, s0, seen0) && Intact(w, n, s0, seen0, base)
    modifies w`st, w`seen, w`writes, w`hostFaults
    ensures On(w, n, s0, seen0) && Intact(w, n, s0, seen0, base)
    ensures OnlyContents(n, old(w.st), w.st) && LogGrows(n, s0, base, old(w.writes), w.writes)
    ensures w.hostFaults >= old(w.hostFaults)
    ensures w.hostFaults == old(w.hostFaults) && w.writes == old(w.writes) ==> ok
    ensures ok ==> w.hostFaults == old(w.hostFaults)
    ensures ok ==>
      && dumps.Keys == Listed(After(n, s0, old(w.writes)[base..])).Keys
      && DumpedBetween(dumps, n, s0, w.writes[base..], |old(w.writes)| - base, |w.writes| - base)
  {
    hide On, After, OldData, DumpedBetween, Listed;
    dumps, ok := map[], true;
    var todo := Listed(w.st.volumes[n].data).Keys;
    ghost var listed, j := todo, |w.writes| - base;
    assert w.st.volumes[n := w.st.volumes[n]] == w.st.volumes;
    NoDumpsYet(n, s0, w.writes[base..], j, j);
    LogStands(n, s0, base, w.writes);
    while ok && todo != {}
      invariant On(w, n, s0, seen0) && Intact(w, n, s0, seen0, base)
      invariant OnlyContents(n, old(w.st), w.st) && LogGrows(n, s0, base, old(w.writes), w.writes)
      invariant todo <= listed && w.hostFaults >= old(w.hostFaults)
      invariant w.hostFaults == old(w.hostFaults) && w.writes == old(w.writes) ==> ok
      invariant ok ==> w.hostFaults == old(w.hostFaults)
      invariant ok ==>
        dumps.Keys == listed - todo && DumpedBetween(dumps, n, s0, w.writes[base..], j, |w.writes| - base)
      decreases todo
    {
      ghost var log0 := w.writes[base..];
      ok := DumpOne(w, n, s0, seen0, base);
      if w.writes == old(w.writes) { StillListed(n, s0, old(w.writes)[base..]); }
      var db :| db in todo;
      ok := ok && db in w.st.volumes[n].data;          // a database dropped meanwhile cannot be dumped
      if ok {
        DumpNow(dumps, n, s0, log0, w.writes[base..], j, db);
        dumps := dumps[db := w.st.volumes[n].data[db]];
      }
      todo := todo - {db};
    }
  }

  lemma StillListed(n: Name, s0: State, log: seq<ClientWrite>)
    requires n in s0.volumes
    ensures Listed(After(n, s0, log)).Keys <= After(n, s0, log).Keys
  {
  }

  /** The time one dump takes: clients write, and the dump itself may fail. */
  method DumpOne(w: World, n: Name, ghost s0: State, ghost seen0: set<State>, ghost base: nat) returns (ok: bool)
    requires On(w, n, s0, seen0) && Intact(w, n, s0, seen0, base)
    modifies w`st, w`seen, w`writes, w`hostFaults
    ensures On(w, n, s0, seen0) && Intact(w, n, s0, seen0, base)
    ensures OnlyContents(n, old(w.st), w.st) && LogGrows(n, s0, base, old(w.writes), w.writes)
    ensures w.hostFaults == old(w.hostFaults) + (if ok then 0 else 1)
  {
    hide On, After, OldData;
    ClientsWrite(w, n, s0, seen0, base);
    ok := w.Attempt();
  }

  /** The archive of dumps taken so far and metadata read now. */
  lemma TakenNow(a: Archive, n: Name, s0: State, log0: seq<ClientWrite>, log1: seq<ClientWrite>, log: seq<ClientWrite>)
    requires n in s0.volumes && log0 <= log1 <= log && a.owner == n
    requires a.dumps.Keys == Listed(After(n, s0, log0)).Keys && DumpedBetween(a.dumps, n, s0, log1, |log0|, |log1|)
    requires a.metadata == Providers(Listed(After(n, s0, log)))
    ensures TakenFrom(a, n, s0, log)
  {
    var more := log[|log1|..];
    assert log1 + more == log && log[..|log0|] == log0 && log[..|log|] == log;
    DumpedGrows(a.dumps, n, s0, log1, more, |log0|, |log1|, |log|);
    assert Taken(a, n, s0, log, |log0|, |log|);
  }

  /** Dump the databases, then read their metadata. */
  method Capture(w: World, n: Name, ghost s0: State, ghost seen0: set<State>, ghost base: nat)
    returns (a: Archive, ok: bool)
    requires On(w, n, s0, seen0) && Intact(w, n, s0, seen0, base)
    modifies w`st, w`seen, w`writes, w`hostFaults
    ensures On(w, n, s0, seen0) && Intact(w, n, s0, seen0, base) && w.hostFaults >= old(w.hostFaults)
    ensures OnlyContents(n, old(w.st), w.st) && LogGrows(n, s0, base, old(w.writes), w.writes)
    ensures ok ==> a.owner == n && TakenFrom(a, n, s0, w.writes[base..]) && w.hostFaults == old(w.hostFaults)
    ensures !ok && w.writes == old(w.writes) ==> w.hostFaults > old(w.hostFaults)
    ensures ok && w.writes == old(w.writes) ==> a.metadata == Snapshot(n, old(w.st).volumes[n].data).metadata
  {
    hide On, OldData, After, TakenFrom, DumpedBetween, Listed, Providers;
    ghost var log0 := w.writes[base..];
    a := Snapshot(n, map[]);
    var dumps;
    dumps, ok := DumpDatabases(w, n, s0, seen0, base);
    if !ok { return; }
    ghost var log1 := w.writes[base..];
    ClientsWrite(w, n, s0, seen0, base);
    ok := w.Attempt();
    if !ok { return; }
    a := Archive(n, dumps, Providers(Listed(w.st.volumes[n].data)));
    TakenNow(a, n, s0, log0, log1, w.writes[base..]);
  }

  /**
    Dump the running instance, capture its metadata, publish, extract and check; clients
    keep writing all the while.
  */
  method TakeVerifiedBackup(w: World, n: Name, ghost s0: State, ghost seen0: set<State>, ghost base: nat)
    returns (a: Archive, ok: bool)
    requires On(w, n, s0, seen0) && w.st.archives == s0.archives
    requires n in w.st.volumes ==> Intact(w, n, s0, seen0, base)
    modifies w`st, w`seen, w`writes, w`hostFaults
    ensures On(w, n, s0, seen0) && w.st.nextId == old(w.st).nextId && w.hostFaults >= old(w.hostFaults)
    // Any failed call ends it; without faults and writes it fails exactly on what the guard refuses.
    ensures ok ==> w.hostFaults == old(w.hostFaults)
    ensures ok && w.writes == old(w.writes) ==>
      n in old(w.st).volumes && Guarded(n, Snapshot(n, old(w.st).volumes[n].data))
    ensures !ok && w.hostFaults == old(w.hostFaults) && w.writes == old(w.writes) ==>
      n !in old(w.st).volumes || !Guarded(n, Snapshot(n, old(w.st).volumes[n].data))
    ensures w.st.rows == old(w.st).rows && w.st.containers == old(w.st).containers
    ensures n !in old(w.st).volumes ==> !ok && w.st == old(w.st) && w.seen == old(w.seen) && w.writes == old(w.writes)
    ensures n in old(w.st).volumes ==> Intact(w, n, s0, seen0, base) && LogGrows(n, s0, base, old(w.writes), w.writes)
    ensures ok ==>
      && n in old(w.st).volumes && w.st.archives == s0.archives + [a]
      && Guarded(n, a) && TakenFrom(a, n, s0, w.writes[base..])
  {
    hide On, OldData, After, TakenFrom, DumpedBetween, Listed;
    a, ok := Snapshot(n, map[]), false;
    var globals := w.Attempt();            // the roles could be dumped
    if !globals || n !in w.st.volumes {
      LogStands(n, s0, base, w.writes);
      return;
    }
    a, ok := Capture(w, n, s0, seen0, base);
    if !ok { return; }
    ghost var log2 := w.writes[base..];
    ClientsWrite(w, n, s0, seen0, base);
    TakenGrows(a, n, s0, log2, w.writes[base..][|log2|..]);
    assert log2 + w.writes[base..][|log2|..] == w.writes[base..];
    ok := PublishArchive(w, n, a, s0, seen0, base);
    var extracts := w.Attempt();           // read back into a fresh directory
    ok := ok && extracts && a.metadata != map[];
    if ok { ok := CheckLocales(a); }
  }

  method PublishArchive(w: World, n: Name, a: Archive, ghost s0: State, ghost seen0: set<State>, ghost base: nat)
      returns (ok: bool)
    requires On(w, n, s0, seen0) && Intact(w, n, s0, seen0, base) && w.st.archives == s0.archives
    modifies w`st, w`seen, w`hostFaults
    ensures On(w, n, s0, seen0) && Intact(w, n, s0, seen0, base)
    ensures w.hostFaults == old(w.hostFaults) + (if ok then 0 else 1)
    ensures w.st == if ok then old(w.st).(archives := s0.archives + [a]) else old(w.st)
  {
    ok := w.Publish(a);
    OldDataNow(n, s0, w.writes[base..], w.st);
  }

  /** Only libc-locale databases can be recreated faithfully; the admin one is not asked. */
  method CheckLocales(a: Archive) returns (ok: bool)
    ensures ok <==> forall db | db in a.metadata && db != Admin :: a.metadata[db] == "c"
  {
    var todo := a.metadata.Keys;
    while todo != {}
      invariant todo <= a.metadata.Keys
      invariant forall db | db in a.metadata && db !in todo && db != Admin :: a.metadata[db] == "c"
      decreases todo
    {
      var db :| db in todo;
      todo := todo - {db};
      if db != Admin && a.metadata[db] != "c" { return false; }
    }
    return true;
  }

  lemma RowThere(w: World, n: Name, s0: State, seen0: set<State>)
    requires On(w, n, s0, seen0)
    ensures w.Valid() && n in w.st.rows && w.st.rows[n].cid < w.st.nextId && IdIsOwn(w.st, n, w.st.rows[n].cid)
  {
  }

  /** A step that left the volume alone keeps it intact. */
  lemma StillIntact(w: World, n: Name, s0: State, seen0: set<State>, base: nat, s1: State, seen1: set<State>)
    requires base <= |w.writes| && OldVolume(n, s0, s1) && s1.volumes[n].data == After(n, s0, w.writes[base..])
    requires forall s | s in seen1 && s !in seen0 :: OldData(n, s0, w.writes[base..], s)
    requires w.seen == seen1 + {w.st} && w.st.volumes == s1.volumes
    ensures Intact(w, n, s0, seen0, base)
  {
    OldDataNow(n, s0, w.writes[base..], w.st);
  }

  /** The instance has no container, or the one its row names. */
  ghost predicate Known(s: State, n: Name)
  {
    n in s.rows && forall id | id in s.containers && s.containers[id].owner == n :: id == s.rows[n].cid
  }

  /** The container the row names is gone, and so is the instance's if the row knew it. */
  ghost predicate Retired(n: Name, s0: State, s: State)
  {
    n in s.rows && s.rows[n].cid !in s.containers && (HasContainer(s, n) <==> !Known(s0, n))
  }

  /** Stop and remove the container the row names; clients may write until it is down. */
  method RetireContainer(w: World, n: Name, ghost s0: State, ghost seen0: set<State>, ghost base: nat)
      returns (ok: bool)
    requires On(w, n, s0, seen0) && Intact(w, n, s0, seen0, base)
    modifies w`st, w`seen, w`hostFaults, w`storeFaults, w`writes
    ensures w.hostFaults >= old(w.hostFaults) && w.storeFaults == old(w.storeFaults)
    ensures On(w, n, s0, seen0) && Intact(w, n, s0, seen0, base)
    ensures w.st.rows == old(w.st).rows && w.st.archives == old(w.st).archives
    ensures LogGrows(n, s0, base, old(w.writes), w.writes)
    ensures ok ==> Retired(n, old(w.st), w.st)
    ensures w.hostFaults == old(w.hostFaults) && old(w.st).rows[n].cid in old(w.st).containers ==>
      RemovedStopped(w.seen, old(w.st).rows[n].cid)
    ensures !ok ==> w.hostFaults > old(w.hostFaults)
  {
    OneContainer(w, n, s0, seen0);
    hide On, SameElsewhere, IsBuild, OldData, After, Known, Retired;
    ClientsWrite(w, n, s0, seen0, base);
    RowThere(w, n, s0, seen0);
    var cid := w.st.rows[n].cid;
    ok := true;
    if cid != NoId {
      var found, unknown := w.Inspect(ById(cid));
      if !unknown && found.Some? && IsUp(w.st, n, cid) {
        ghost var s1, seen1 := w.st, w.seen;
        ok := Move(w, n, cid, Down, s0, seen0);
        StillIntact(w, n, s0, seen0, base, s1, seen1);
      }
      if ok {
        RowThere(w, n, s0, seen0);
        ghost var s1, seen1 := w.st, w.seen;
        ok := Clear(w, n, ById(cid), s0, seen0);
        StillIntact(w, n, s0, seen0, base, s1, seen1);
      }
    }
    if ok { RetiredNow(n, old(w.st), w.st); }
  }

  lemma OneContainer(w: World, n: Name, s0: State, seen0: set<State>)
    requires On(w, n, s0, seen0)
    ensures w.st.rows[n].cid in w.st.containers ==> Known(w.st, n)
    ensures NoId !in w.st.containers
  {
  }

  lemma RetiredNow(n: Name, s0: State, s: State)
    requires n in s0.rows && s.rows == s0.rows && s.rows[n].cid !in s.containers
    requires Remains(s, n, s0)
    requires s0.rows[n].cid in s0.containers ==> Known(s0, n)
    requires s0.rows[n].cid !in s0.containers ==> s.containers == s0.containers
    ensures Retired(n, s0, s)
  {
    if !Known(s0, n) {
      var id :| id in s0.containers && s0.containers[id].owner == n && id != s0.rows[n].cid;
      assert id in s.containers;
    }
  }

  /** The old cluster is gone: the archive holds its data, and the row says "upgrading". */
  ghost predicate Replacement(n: Name, job: Job, s: State)
  {
    && Gone(n, job.s0, s) && s.archives == job.s0.archives + [job.a]
    && n in s.rows && (job.marked ==> s.rows[n].status == Upgrading)
  }

  ghost predicate Replacing(w: World, n: Name, job: Job)
    reads w`st, w`seen
  {
    && On(w, n, job.s0, job.seen0) && UpgradeAlong(w.seen, n, job) && Checked(n, job)
    && Replacement(n, job, w.st) && n in job.s0.volumes && job.s0.volumes[n].gen < job.s0.nextId
  }

  lemma ReplacementIsPoint(n: Name, job: Job)
    requires Checked(n, job)
    ensures forall s | Replacement(n, job, s) :: UpgradePoint(n, job, s)
  {
    hide Checked, OldData;
  }

  /**
    The crash points from `seen1` on left archives and status as they were in `s1`, and the
    old volume did not come back.
  */
  lemma StillReplacing(w: World, n: Name, job: Job, s1: State, seen1: set<State>)
    requires On(w, n, job.s0, job.seen0) && seen1 <= w.seen && Checked(n, job)
    requires UpgradeAlong(seen1, n, job) && Replacement(n, job, s1) && n in job.s0.volumes
    requires job.s0.volumes[n].gen < job.s0.nextId
    requires Lifecycle.SameStanding(n, s1, w.st) && Gone(n, job.s0, w.st)
    requires forall s | s in w.seen && s !in seen1 :: Lifecycle.SameStanding(n, s1, s) && Gone(n, job.s0, s)
    ensures Replacing(w, n, job)
  {
    assert forall s | s in w.seen && s !in seen1 :: Replacement(n, job, s);
    ReplacementIsPoint(n, job);
  }

  /** An image that is there, and a group that fits. */
  predicate Makeable(host: Host, s: State, spec: Spec)
  {
    Resolve(s, spec.image).Some? && spec.shape !in host.misfits
  }

  /** Create the target cluster and wait until it accepts connections. */
  method FreshTarget(w: World, n: Name, spec: Spec, ghost job: Job) returns (ok: bool)
    requires Replacing(w, n, job)
    modifies w`st, w`seen, w`hostFaults, w`storeFaults
    ensures w.hostFaults >= old(w.hostFaults) && w.storeFaults >= old(w.storeFaults)
    ensures Replacing(w, n, job) && old(w.seen) <= w.seen
    ensures n in w.st.rows && w.st.rows[n] == old(w.st).rows[n].(cid := w.st.rows[n].cid)
    ensures ok ==> n in w.st.volumes && w.st.volumes[n].data == FreshCluster && Serves(w.st, n, spec.shape)
    ensures ok ==> Resolve(old(w.st), spec.image) == Some(w.st.containers[w.st.rows[n].cid].image)
    ensures ok ==> !HasContainer(old(w.st), n) && spec.shape !in w.host.misfits
    ensures ok ==> w.hostFaults == old(w.hostFaults) && w.storeFaults == old(w.storeFaults)
    ensures !ok && n !in old(w.st).volumes && Makeable(w.host, old(w.st), spec) ==>
      HasContainer(old(w.st), n) || w.hostFaults > old(w.hostFaults) || w.storeFaults > old(w.storeFaults)
  {
    ghost var s1, seen1 := w.st, w.seen;
    assert n in w.st.rows && job.s0.volumes[n].gen < w.st.nextId;
    hide On, SameElsewhere, Checked, UpgradeAlong, Resolve;
    ok := BuildTarget(w, n, spec, job.s0, job.seen0);
    StillReplacing(w, n, job, s1, seen1);
  }

  lemma Unobstructed(host: Host, s: State, n: Name, spec: Spec)
    ensures Makeable(host, s, spec) && n !in s.volumes && !HasContainer(s, n) ==>
      Lifecycle.Obstacle(host, s, n, spec) == Lifecycle.Created
  {
  }

  /** The same without the bookkeeping: any volume it makes is a new one. */
  method BuildTarget(w: World, n: Name, spec: Spec, ghost s0: State, ghost seen0: set<State>) returns (ok: bool)
    requires On(w, n, s0, seen0)
    modifies w`st, w`seen, w`hostFaults, w`storeFaults
    ensures On(w, n, s0, seen0) && old(w.seen) <= w.seen && w.hostFaults >= old(w.hostFaults)
    ensures w.storeFaults >= old(w.storeFaults)
    ensures Lifecycle.SameStanding(n, old(w.st), w.st) && Lifecycle.SameOrNewer(n, old(w.st), w.st)
    ensures forall s | s in w.seen && s !in old(w.seen) ::
      Lifecycle.SameStanding(n, old(w.st), s) && Lifecycle.SameOrNewer(n, old(w.st), s)
    ensures ok ==> n in w.st.volumes && w.st.volumes[n].data == FreshCluster && Serves(w.st, n, spec.shape)
    ensures ok ==> Resolve(old(w.st), spec.image) == Some(w.st.containers[w.st.rows[n].cid].image)
    ensures ok ==> !HasContainer(old(w.st), n) && spec.shape !in w.host.misfits
    ensures ok ==> w.hostFaults == old(w.hostFaults) && w.storeFaults == old(w.storeFaults)
    ensures !ok && n !in old(w.st).volumes && Makeable(w.host, old(w.st), spec) ==>
      HasContainer(old(w.st), n) || w.hostFaults > old(w.hostFaults) || w.storeFaults > old(w.storeFaults)
  {
    hide On, SameElsewhere, HasContainer, Lifecycle.Obstacle, Resolve;
    RowThere(w, n, s0, seen0);
    Unobstructed(w.host, w.st, n, spec);
    var id, _, _ := Lifecycle.CreateContainer(w, n, spec, s0, seen0);
    ok := id != NoId;
    if ok {
      ok := Lifecycle.BringUp(w, n, id, s0, seen0);
      if ok {
        // initdb has run by the time the server answers.
        Fill(w, n, FreshCluster, s0, seen0);
      }
    }
  }

  /** New contents for the new volume. */
  method Refill(w: World, n: Name, data: Cluster, ghost job: Job)
    requires Replacing(w, n, job) && n in w.st.volumes
    modifies w`st, w`seen
    ensures Replacing(w, n, job) && old(w.seen) <= w.seen && OnlyData(n, old(w.st), w.st)
    ensures w.st.volumes[n].data == data
  {
    ReplacementIsPoint(n, job);
    hide On, Checked, UpgradePoint;
    Fill(w, n, data, job.s0, job.seen0);
  }

  /** Nothing but volumes may differ, and the instance has one. */
  predicate OnlyData(n: Name, s0: State, s: State)
  {
    n in s.volumes && s.rows == s0.rows && s.containers == s0.containers
  }

  lemma RestoredNext(data: Cluster, a: Archive, done: set<string>, db: string)
    requires RestoredFor(data, a, done) && db in a.metadata && db !in done
    ensures db !in a.dumps && db == Admin ==> RestoredFor(data, a, done + {db})
    ensures db in a.dumps ==>
      RestoredFor(data[db := Database(if db == Admin then "c" else a.metadata[db], a.dumps[db].content, false)], a,
          done + {db})
  {
  }

  /** Recreate and restore one database, or leave it half done. */
  method RestoreDatabase(w: World, n: Name, a: Archive, db: string, ghost done: set<string>, ghost job: Job)
      returns (ok: bool)
    requires Replacing(w, n, job) && a == job.a
    requires n in w.st.volumes && db in a.metadata && db !in done && RestoredFor(w.st.volumes[n].data, a, done)
    modifies w`st, w`seen, w`hostFaults
    ensures Replacing(w, n, job) && old(w.seen) <= w.seen && OnlyData(n, old(w.st), w.st)
    ensures ok ==> RestoredFor(w.st.volumes[n].data, a, done + {db}) && w.hostFaults == old(w.hostFaults)
    ensures w.hostFaults >= old(w.hostFaults)
    ensures !ok ==> w.hostFaults > old(w.hostFaults) || (db !in a.dumps && db != Admin)
  {
    hide Replacing, RestoredFor;
    var data := w.st.volumes[n].data;
    RestoredNext(data, a, done, db);
    if db !in a.dumps {
      return db == Admin;                  // an admin database that was not dumped needs nothing
    }
    var provider := if db == Admin then "c" else a.metadata[db];
    var partial := *;
    ok := w.Attempt();
    Refill(w, n, data[db := Database(provider, if ok then a.dumps[db].content else partial, false)], job);
  }

  lemma NothingRestoredYet(a: Archive)
    ensures RestoredFor(FreshCluster, a, {})
  {
  }

  method RestoreIntoCluster(w: World, n: Name, a: Archive, ghost job: Job) returns (ok: bool)
    requires Replacing(w, n, job) && a == job.a
    requires n in w.st.volumes && w.st.volumes[n].data == FreshCluster
    modifies w`st, w`seen, w`hostFaults
    ensures Replacing(w, n, job) && old(w.seen) <= w.seen && OnlyData(n, old(w.st), w.st)
    ensures ok ==> Restored(w.st.volumes[n].data, a) && w.hostFaults == old(w.hostFaults)
    ensures w.hostFaults >= old(w.hostFaults)
    ensures !ok ==> w.hostFaults > old(w.hostFaults) || exists db :: db in a.metadata && db !in a.dumps && db != Admin
  {
    hide Replacing, RestoredFor;
    ok := w.Attempt();                     // roles replayed and present
    var todo := a.metadata.Keys;
    ghost var done := {};
    NothingRestoredYet(a);
    while ok && todo != {}
      invariant Replacing(w, n, job) && old(w.seen) <= w.seen && OnlyData(n, old(w.st), w.st)
      invariant todo <= a.metadata.Keys && done == a.metadata.Keys - todo
      invariant ok ==> RestoredFor(w.st.volumes[n].data, a, done) && w.hostFaults == old(w.hostFaults)
      invariant w.hostFaults >= old(w.hostFaults)
      invariant !ok ==>
        w.hostFaults > old(w.hostFaults) || exists db :: db in a.metadata && db !in a.dumps && db != Admin
      decreases todo
    {
      var db :| db in todo;
      ok := RestoreDatabase(w, n, a, db, done, job);
      todo, done := todo - {db}, done + {db};
    }
    assert ok ==> done == a.metadata.Keys;
    var verified := w.Attempt();           // the list of databases read back
    ok := ok && verified;
  }

  /** One row write, to a row that tells the truth if the old volume is gone. */
  method Settle(w: World, n: Name, row: Row, ghost job: Job) returns (ok: bool)
    requires Covered(w, n, job) && n in w.st.rows && row.cid == w.st.rows[n].cid
    requires job.marked ==> HonestStatus(n, WithRow(w.st, n, row), job.a)
    modifies w`st, w`seen, w`storeFaults
    ensures Covered(w, n, job) && old(w.seen) <= w.seen
    ensures w.st == if ok then WithRow(old(w.st), n, row) else old(w.st)
    ensures w.storeFaults == old(w.storeFaults) + (if ok then 0 else 1)
  {
    RowThere(w, n, job.s0, job.seen0);
    hide On, Checked, HonestStatus;
    ok := Write(w, n, row, job.s0, job.seen0);
  }

  /** From here on a failure is recorded as "error". */
  method MarkError(w: World, n: Name, ghost job: Job)
    requires Covered(w, n, job)
    modifies w`st, w`seen, w`storeFaults
    ensures Covered(w, n, job) && old(w.seen) <= w.seen && w.storeFaults >= old(w.storeFaults)
    ensures n in w.st.rows && w.st == WithRow(old(w.st), n, old(w.st).rows[n].(status := w.st.rows[n].status))
    ensures w.storeFaults == old(w.storeFaults) ==> w.st.rows[n].status == Error
  {
    RowThere(w, n, job.s0, job.seen0);
    hide On, Checked, UpgradePoint, UpgradeAlong;
    assert w.st.rows == w.st.rows[n := w.st.rows[n]];
    var _ := Settle(w, n, w.st.rows[n].(status := Error), job);
  }

  lemma ReplacingIsCovered(w: World, n: Name, job: Job)
    requires Replacing(w, n, job)
    ensures Covered(w, n, job) && n in w.st.rows && (job.marked ==> w.st.rows[n].status == Upgrading)
  {
    ReplacementIsPoint(n, job);
  }

  /** Record version and image, then the status; a status that cannot be written is only logged. */
  method Finalize(w: World, n: Name, image: ImageRef, shape: Shape, ghost job: Job) returns (ok: bool)
    requires Replacing(w, n, job)
    requires Serves(w.st, n, shape) && n in w.st.volumes && Restored(w.st.volumes[n].data, job.a)
    modifies w`st, w`seen, w`storeFaults
    ensures Covered(w, n, job)
    ensures w.storeFaults >= old(w.storeFaults) && old(w.seen) <= w.seen
    ensures n in w.st.rows && w.st == WithRow(old(w.st), n, w.st.rows[n])
    ensures ok ==> w.st.rows[n] == Row(w.st.rows[n].status, old(w.st).rows[n].cid, image, shape)
    ensures w.storeFaults == old(w.storeFaults) ==> ok && w.st.rows[n].status == Running
  {
    hide Covered, Replacing, RestoredFor;
    ReplacingIsCovered(w, n, job);
    ok := Settle(w, n, w.st.rows[n].(image := image, shape := shape), job);
    var status := if ok then Running else Error;
    var _ := Settle(w, n, w.st.rows[n].(status := status), job);
    assert w.st.rows == old(w.st).rows[n := w.st.rows[n]];
  }

  /**
    The volume was removed from a state in which it held what the last client had left in it
    and the container that had served it was gone.
  */
  ghost predicate RemovedFrom(seen: set<State>, n: Name, job: Job)
  {
    exists p :: p in seen && OldVolume(n, job.s0, p) && p.volumes[n].data == After(n, job.s0, job.log)
        && Retired(n, job.s0, p) && p.(volumes := p.volumes - {n}) in seen
  }

  /** The job is at the point of no return: checked, marked if possible, and the volume still there. */
  ghost predicate Ready(w: World, n: Name, job: Job)
    reads w`st, w`seen
  {
    && On(w, n, job.s0, job.seen0) && UpgradeAlong(w.seen, n, job) && Checked(n, job)
    && OldVolume(n, job.s0, w.st) && w.st.volumes[n].data == After(n, job.s0, job.log)
    && job.s0.volumes[n].gen < job.s0.nextId
    && w.st.archives == job.s0.archives + [job.a] && (job.marked ==> w.st.rows[n].status == Upgrading)
  }

  lemma ReadyIsCovered(w: World, n: Name, job: Job)
    requires Ready(w, n, job)
    ensures Covered(w, n, job) && n in w.st.rows && w.st in w.seen
  {
    OldDataNow(n, job.s0, job.log, w.st);
  }

  /** Removing the volume is the first destructive step. */
  method RemoveOldVolume(w: World, n: Name, ghost job: Job) returns (ok: bool)
    requires Ready(w, n, job) && Retired(n, job.s0, w.st)
    modifies w`st, w`seen, w`hostFaults
    ensures Covered(w, n, job) && old(w.seen) <= w.seen
    ensures w.hostFaults == old(w.hostFaults) + (if ok then 0 else 1)
    ensures w.st.rows == old(w.st).rows && w.st.containers == old(w.st).containers
    ensures !OldVolume(n, job.s0, w.st) ==> RemovedFrom(w.seen, n, job)
    ensures ok ==> Replacing(w, n, job) && n !in w.st.volumes
  {
    hide On, Checked, OldData, After, Retired;
    ReadyIsCovered(w, n, job);
    ok := DropVolume(w, n, job.s0, job.seen0);
  }

  method DropOld(w: World, n: Name, retired: bool, ghost job: Job) returns (ok: bool)
    requires Ready(w, n, job) && (retired ==> Retired(n, job.s0, w.st))
    modifies w`st, w`seen, w`hostFaults, w`storeFaults
    ensures w.hostFaults >= old(w.hostFaults) && w.storeFaults >= old(w.storeFaults)
    ensures Covered(w, n, job) && old(w.seen) <= w.seen && n in w.st.rows
    ensures !OldVolume(n, job.s0, w.st) ==> RemovedFrom(w.seen, n, job)
    ensures ok ==> retired && Replacing(w, n, job) && n !in w.st.volumes && w.st.containers == old(w.st).containers
    ensures !ok ==> w.hostFaults > old(w.hostFaults) || !retired
    ensures !ok && w.storeFaults == old(w.storeFaults) ==> w.st.rows[n].status == Error
  {
    ReadyIsCovered(w, n, job);
    assert OldVolume(n, job.s0, w.st);
    hide Ready, Covered, Replacing, RemovedFrom, Retired;
    ok := retired;
    if retired {
      ok := RemoveOldVolume(w, n, job);
    }
    if !ok {
      ghost var seen1 := w.seen;
      MarkError(w, n, job);
      RemovedFromGrows(seen1, w.seen, n, job);
    }
  }

  lemma RemovedFromGrows(seen1: set<State>, seen: set<State>, n: Name, job: Job)
    requires seen1 <= seen
    ensures RemovedFrom(seen1, n, job) ==> RemovedFrom(seen, n, job)
  {
  }

  lemma IntactIsReady(w: World, n: Name, job: Job, base: nat)
    requires On(w, n, job.s0, job.seen0) && Intact(w, n, job.s0, job.seen0, base) && job.log == w.writes[base..]
    requires job.s0.volumes[n].gen < job.s0.nextId && Guarded(n, job.a) && TakenFrom(job.a, n, job.s0, job.log)
    requires w.st.archives == job.s0.archives + [job.a] && (job.marked ==> w.st.rows[n].status == Upgrading)
    ensures Ready(w, n, job)
  {
    hide OldData, After, Guarded, TakenFrom;
  }

  /** Say "upgrading", retire the container, and only then remove the volume. */
  method TearDown(w: World, n: Name, ghost a: Archive, ghost s0: State, ghost seen0: set<State>, ghost base: nat)
    returns (ok: bool, ghost job: Job)
    requires On(w, n, s0, seen0) && Intact(w, n, s0, seen0, base) && s0.volumes[n].gen < s0.nextId
    requires Guarded(n, a) && TakenFrom(a, n, s0, w.writes[base..]) && w.st.archives == s0.archives + [a]
    requires w.st.rows == s0.rows && w.st.containers == s0.containers
    modifies w`st, w`seen, w`hostFaults, w`storeFaults, w`writes
    ensures LogGrows(n, s0, base, old(w.writes), w.writes) && job == Job(s0, seen0, a, job.marked, w.writes[base..])
    ensures w.hostFaults >= old(w.hostFaults) && w.storeFaults >= old(w.storeFaults)
    ensures Covered(w, n, job) && n in w.st.rows && (w.storeFaults == old(w.storeFaults) ==> job.marked)
    ensures !OldVolume(n, s0, w.st) ==> RemovedFrom(w.seen, n, job)
    ensures ok ==> Replacing(w, n, job) && n !in w.st.volumes && (HasContainer(w.st, n) <==> !Known(s0, n))
    ensures !ok ==> w.hostFaults > old(w.hostFaults)
    ensures !ok && w.storeFaults == old(w.storeFaults) ==> w.st.rows[n].status == Error
  {
    hide On, Guarded, TakenFrom, OldData, After, Known, LogGrows, RemovedFrom, HasContainer, Retired;
    hide Ready, Covered, Replacing;
    ghost var log0 := w.writes[base..];
    var marked, retired := MarkAndRetire(w, n, s0, seen0, base);
    job := Job(s0, seen0, a, marked, w.writes[base..]);
    LogSuffix(n, s0, base, old(w.writes), w.writes);
    TakenGrows(a, n, s0, log0, job.log[|log0|..]);
    IntactIsReady(w, n, job, base);
    hide Intact;
    ghost var s1 := w.st;
    ok := DropOld(w, n, retired, job);
    if ok { StillRetired(n, s0, s1, w.st); }
  }

  lemma StillRetired(n: Name, s0: State, s1: State, s: State)
    requires Retired(n, s0, s1) && s.containers == s1.containers
    ensures HasContainer(s, n) <==> !Known(s0, n)
  {
  }

  lemma LogSuffix(n: Name, s0: State, base: nat, log0: seq<ClientWrite>, log: seq<ClientWrite>)
    requires LogGrows(n, s0, base, log0, log) && base <= |log0|
    ensures |log0| <= |log| && log0[base..] + log[base..][|log0| - base..] == log[base..]
  {
  }

  /** Everything that comes before the first destructive step. */
  method MarkAndRetire(w: World, n: Name, ghost s0: State, ghost seen0: set<State>, ghost base: nat)
    returns (marked: bool, retired: bool)
    requires On(w, n, s0, seen0) && Intact(w, n, s0, seen0, base)
    requires w.st.rows == s0.rows && w.st.containers == s0.containers
    modifies w`st, w`seen, w`hostFaults, w`storeFaults, w`writes
    ensures On(w, n, s0, seen0) && Intact(w, n, s0, seen0, base) && w.st.archives == old(w.st).archives
    ensures LogGrows(n, s0, base, old(w.writes), w.writes)
    ensures w.storeFaults == old(w.storeFaults) + (if marked then 0 else 1) && w.hostFaults >= old(w.hostFaults)
    ensures n in w.st.rows && (marked ==> w.st.rows[n].status == Upgrading)
    ensures if retired then Retired(n, s0, w.st) else w.hostFaults > old(w.hostFaults)
  {
    RowThere(w, n, s0, seen0);
    hide On, OldData, After, LogGrows, Known, HasContainer;
    ghost var s1, seen1 := w.st, w.seen;
    marked := WriteStatus(w, n, Upgrading, s0, seen0);
    StillIntact(w, n, s0, seen0, base, s1, seen1);
    ghost var s2 := w.st;
    retired := RetireContainer(w, n, s0, seen0, base);
    if retired { RetiredSince(n, s0, s2, w.st); }
  }

  lemma RetiredSince(n: Name, s0: State, s1: State, s: State)
    requires Retired(n, s1, s) && s1.containers == s0.containers && n in s0.rows && n in s1.rows
    requires s1.rows[n].cid == s0.rows[n].cid
    ensures Retired(n, s0, s)
  {
  }

  method ReplaceAndRestore(w: World, n: Name, a: Archive, image: ImageRef, shape: Shape, ghost job: Job)
      returns (ok: bool)
    requires Replacing(w, n, job) && a == job.a
    modifies w`st, w`seen, w`hostFaults, w`storeFaults
    ensures w.hostFaults >= old(w.hostFaults) && w.storeFaults >= old(w.storeFaults)
    ensures Covered(w, n, job) && old(w.seen) <= w.seen && n in w.st.rows
    ensures ok ==>
      && n in w.st.volumes && Restored(w.st.volumes[n].data, a) && Serves(w.st, n, shape)
      && w.st.rows[n] == Row(w.st.rows[n].status, w.st.rows[n].cid, image, shape)
      && Resolve(old(w.st), image) == Some(w.st.containers[w.st.rows[n].cid].image)
    ensures w.storeFaults == old(w.storeFaults) ==> w.st.rows[n].status == if ok then Running else Error
    ensures ok ==> !HasContainer(old(w.st), n)
    ensures ok ==> shape !in w.host.misfits
    ensures !ok && n !in old(w.st).volumes && Makeable(w.host, old(w.st), Spec(image, shape)) ==>
      || HasContainer(old(w.st), n) || w.hostFaults > old(w.hostFaults) || w.storeFaults > old(w.storeFaults)
      || exists db :: db in a.metadata && db !in a.dumps && db != Admin
  {
    hide Replacing, Covered, RestoredFor;
    ok := FreshTarget(w, n, Spec(image, shape), job);
    if ok {
      ok := RestoreIntoCluster(w, n, a, job);
    }
    if ok {
      ok := Finalize(w, n, image, shape, job);
    } else {
      ReplacingIsCovered(w, n, job);
      MarkError(w, n, job);
    }
  }

  /** Reads only: the row, the versions, the target image, password, group and roles. */
  method ValidateAndPlan(w: World, n: Name, major: nat, image: ImageRef) returns (ok: bool)
    modifies w`hostFaults
    ensures w.hostFaults >= old(w.hostFaults)
    ensures ok ==> Plannable(w.host, w.st, n, major, image) && w.hostFaults == old(w.hostFaults)
    ensures !ok ==> !Plannable(w.host, w.st, n, major, image) || w.hostFaults > old(w.hostFaults)
  {
    var readable := w.Attempt();
    if n !in w.st.rows || !readable { return false; }
    if w.st.rows[n].status != Running || major <= w.st.rows[n].shape.major { return false; }
    var imageExists := w.CheckImageExists(image);
    if !imageExists || w.st.rows[n].shape.group !in w.host.groups { return false; }
    ok := w.Attempt();                     // password, group and roles
  }

  /** A running instance of an older version, and an image to take it to. */
  predicate Plannable(host: Host, s: State, n: Name, major: nat, image: ImageRef)
  {
    && n in s.rows && s.rows[n].status == Running && s.rows[n].shape.major < major && Resolve(s, image).Some?
    && s.rows[n].shape.group in host.groups
  }

  /** The upgraded instance: everything restored, and the row names the container that serves it. */
  ghost predicate UpgradedTo(n: Name, s0: State, s: State, a: Archive, image: ImageRef, shape: Shape)
  {
    && n in s.rows && n in s.volumes && Restored(s.volumes[n].data, a)
    && s.rows[n].image == image && s.rows[n].shape == shape && Serves(s, n, shape)
    && Resolve(s0, image) == Some(s.containers[s.rows[n].cid].image)
  }

  lemma SameImages(w: World, n: Name, job: Job, image: ImageRef)
    requires Replacing(w, n, job)
    ensures Resolve(w.st, image) == Resolve(job.s0, image)
  {
  }

  /** Everything past the backup. */
  method ReplaceCluster(w: World, n: Name, a: Archive, image: ImageRef, shape: Shape, ghost s0: State,
      ghost seen0: set<State>, ghost base: nat)
    returns (ok: bool, ghost job: Job)
    requires On(w, n, s0, seen0) && Intact(w, n, s0, seen0, base) && s0.volumes[n].gen < s0.nextId
    requires Guarded(n, a) && TakenFrom(a, n, s0, w.writes[base..]) && w.st.archives == s0.archives + [a]
    requires w.st.rows == s0.rows && w.st.containers == s0.containers
    modifies w`st, w`seen, w`hostFaults, w`storeFaults, w`writes
    ensures LogGrows(n, s0, base, old(w.writes), w.writes) && job == Job(s0, seen0, a, job.marked, w.writes[base..])
    ensures w.hostFaults >= old(w.hostFaults) && w.storeFaults >= old(w.storeFaults)
    ensures Covered(w, n, job) && n in w.st.rows
    ensures !OldVolume(n, s0, w.st) ==> RemovedFrom(w.seen, n, job)
    ensures w.storeFaults == old(w.storeFaults) ==> job.marked && w.st.rows[n].status == if ok then Running else Error
    ensures ok ==> UpgradedTo(n, s0, w.st, a, image, shape) && Known(s0, n)
    ensures ok ==> shape !in w.host.misfits
    ensures !ok && Makeable(w.host, s0, Spec(image, shape)) ==>
      || !Known(s0, n) || w.hostFaults > old(w.hostFaults) || w.storeFaults > old(w.storeFaults)
      || exists db :: db in a.metadata && db !in a.dumps && db != Admin
  {
    hide On, Intact, Guarded, TakenFrom, Covered, Replacing, RestoredFor, RemovedFrom, LogGrows, Known;
    ok, job := TearDown(w, n, a, s0, seen0, base);
    if ok {
      SameImages(w, n, job, image);
      ghost var seen1 := w.seen;
      ok := ReplaceAndRestore(w, n, a, image, shape, job);
      RemovedFromGrows(seen1, w.seen, n, job);
    }
  }

  /** What it all means if no client wrote in the meantime. */
  ghost predicate QuietlyKept(n: Name, s0: State, seen: set<State>, job: Job)
  {
    && n in s0.volumes && job.a == Snapshot(n, s0.volumes[n].data)
    && forall s | s in seen && s !in job.seen0 && OldVolume(n, s0, s) :: s.volumes[n] == s0.volumes[n]
  }

  lemma QuietJob(n: Name, seen: set<State>, job: Job)
    requires Checked(n, job) && UpgradeAlong(seen, n, job) && job.log == []
    ensures QuietlyKept(n, job.s0, seen, job)
  {
    TakenQuietly(job.a, n, job.s0, job.log);
    forall s | s in seen && s !in job.seen0 && OldVolume(n, job.s0, s) ensures s.volumes[n] == job.s0.volumes[n] {
      assert OldData(n, job.s0, job.log, s);
    }
  }

  /** The upgrade went past its backup: where the data is at every crash point, and which data it is. */
  ghost predicate Accounted(w: World, n: Name, s0: State, seen0: set<State>, base: nat, job: Job)
    reads w`st, w`seen, w`writes
  {
    && base <= |w.writes| && job == Job(s0, seen0, job.a, job.marked, w.writes[base..])
    && Covered(w, n, job) && Checked(n, job)
    && (!OldVolume(n, s0, w.st) ==> RemovedFrom(w.seen, n, job))
    // If no client wrote, the archive is that of the data the instance had when it began.
    && (job.log == [] ==> QuietlyKept(n, s0, w.seen, job))
  }

  lemma CoveredAlong(w: World, n: Name, job: Job)
    requires Covered(w, n, job)
    ensures UpgradeAlong(w.seen, n, job)
  {
  }

  lemma IntactBase(w: World, n: Name, s0: State, seen0: set<State>, base: nat)
    requires Intact(w, n, s0, seen0, base)
    ensures base <= |w.writes|
  {
  }

  method PerformUpgrade(w: World, n: Name, a: Archive, image: ImageRef, shape: Shape, ghost s0: State,
      ghost seen0: set<State>, ghost base: nat)
    returns (ok: bool, ghost job: Job)
    requires On(w, n, s0, seen0) && Intact(w, n, s0, seen0, base) && s0.volumes[n].gen < s0.nextId
    requires Guarded(n, a) && TakenFrom(a, n, s0, w.writes[base..]) && w.st.archives == s0.archives + [a]
    requires w.st.rows == s0.rows && w.st.containers == s0.containers
    modifies w`st, w`seen, w`hostFaults, w`storeFaults, w`writes
    ensures LogGrows(n, s0, base, old(w.writes), w.writes) && Accounted(w, n, s0, seen0, base, job) && job.a == a
    ensures n in w.st.rows
    ensures w.hostFaults >= old(w.hostFaults) && w.storeFaults >= old(w.storeFaults)
    ensures w.storeFaults == old(w.storeFaults) ==> job.marked && w.st.rows[n].status == if ok then Running else Error
    ensures ok ==> Known(s0, n)
    ensures ok ==> shape !in w.host.misfits
    ensures !ok && Makeable(w.host, s0, Spec(image, shape)) && job.log == [] ==>
      !Known(s0, n) || w.hostFaults > old(w.hostFaults) || w.storeFaults > old(w.storeFaults)
    ensures ok ==>
      && UpgradedTo(n, s0, w.st, a, image, shape) && Recovered(n, s0, job.log, w.st.volumes[n].data)
      && (job.log == [] ==> GivesBack(s0.volumes[n].data, w.st.volumes[n].data))
  {
    hide On, Intact, TakenFrom, Guarded, GivesBack, RestoredFor, Recovered, RemovedFrom, QuietlyKept, Covered, LogGrows;
    hide Known;
    IntactBase(w, n, s0, seen0, base);
    ghost var log0 := w.writes[base..];
    ok, job := ReplaceCluster(w, n, a, image, shape, s0, seen0, base);
    LogSuffix(n, s0, base, old(w.writes), w.writes);
    TakenGrows(a, n, s0, log0, job.log[|log0|..]);
    CoveredAlong(w, n, job);
    if ok { RestoredIsRecovered(n, s0, job.log, a, w.st.volumes[n].data); }
    if job.log == [] {
      QuietJob(n, w.seen, job);
      TakenQuietly(a, n, s0, job.log);
      if ok { NothingLost(n, s0.volumes[n].data, w.st.volumes[n].data); }
    }
  }

  method UpgradeInstance(w: World, n: Name, major: nat, image: ImageRef) returns (r: UpgradeOutcome, ghost job: Job)
    requires w.Valid()
    modifies w`st, w`seen, w`hostFaults, w`storeFaults, w`writes
    ensures w.hostFaults >= old(w.hostFaults) && w.storeFaults >= old(w.storeFaults)
    ensures n !in old(w.st).rows ==> r.NotStarted? && w.st == old(w.st) && w.seen == old(w.seen)
    ensures n in old(w.st).rows ==> On(w, n, old(w.st), old(w.seen))
    // The log tells every change of the data that clients made meanwhile.
    ensures n !in old(w.st).volumes ==>
      r.NotStarted? && w.writes == old(w.writes) && w.st == old(w.st) && w.seen == old(w.seen)
    ensures n in old(w.st).volumes ==> LogGrows(n, old(w.st), |old(w.writes)|, old(w.writes), w.writes)
    // A failure up to and including the backup's verification leaves the instance running.
    ensures r.NotStarted? ==>
      && w.st.rows == old(w.st).rows && w.st.containers == old(w.st).containers && w.storeFaults == old(w.storeFaults)
      && (n in old(w.st).rows && n in old(w.st).volumes ==> Intact(w, n, old(w.st), old(w.seen), |old(w.writes)|))
    // At every crash point the data is in the old volume or in a checked archive of it.
    ensures !r.NotStarted? ==>
      && n in old(w.st).rows && old(w.st).rows[n].status == Running && old(w.st).rows[n].shape.major < major
      && Accounted(w, n, old(w.st), old(w.seen), |old(w.writes)|, job)
      && (w.storeFaults == old(w.storeFaults) ==>
            job.marked && w.st.rows[n].status == if r.Halted? then Error else Running)
    // Success: everything restored, as it was dumped; exactly what it was, if no client wrote.
    ensures r.Upgraded? || r.UpgradedUnread? ==>
      && UpgradedTo(n, old(w.st), w.st, job.a, image, old(w.st).rows[n].shape.(major := major))
      && Recovered(n, old(w.st), job.log, w.st.volumes[n].data)
      && (w.writes == old(w.writes) ==> GivesBack(old(w.st).volumes[n].data, w.st.volumes[n].data))
    // If no call fails and no client writes, what becomes of it depends on where it began.
    ensures w.hostFaults == old(w.hostFaults) && w.storeFaults == old(w.storeFaults) && w.writes == old(w.writes) ==>
      r == Verdict(w.host, old(w.st), n, major, image)
  {
    hide Wf, On, Intact, UpgradedTo, Guarded, TakenFrom, Accounted, GivesBack, Recovered, LogGrows, Known, Snapshot;
    hide Resolve;
    r, job := NotStarted, Job(w.st, w.seen, Snapshot(n, map[]), true, []);
    ghost var s0, seen0, base := w.st, w.seen, |w.writes|;
    LogStands(n, s0, base, w.writes);
    if n in w.st.rows { Begins(w, n); }
    var planned := ValidateAndPlan(w, n, major, image);
    if planned {
      var shape := w.st.rows[n].shape.(major := major);
      var archive, ok := TakeVerifiedBackup(w, n, s0, seen0, base);
      if ok {
        ghost var writes1 := w.writes;
        ok, job := PerformUpgrade(w, n, archive, image, shape, s0, seen0, base);
        var readBack := w.Attempt();
        r := if !ok then Halted else if readBack then Upgraded else UpgradedUnread;
        LogOf(w, n, s0, seen0, base, job);
        LogGrowsOn(n, s0, base, old(w.writes), writes1, w.writes);
      }
    }
  }

  /**
    What becomes of an upgrade when no call fails and no client writes.  A container of the
    instance that its row does not know is not removed, and keeps the name from the new one;
    that the group does not fit is found out only when the new cluster is created.
  */
  ghost function Verdict(host: Host, s: State, n: Name, major: nat, image: ImageRef): UpgradeOutcome
  {
    if !Plannable(host, s, n, major, image) || n !in s.volumes || !Guarded(n, Snapshot(n, s.volumes[n].data))
    then NotStarted
    else if !Known(s, n) || s.rows[n].shape.(major := major) in host.misfits then Halted
    else Upgraded
  }

  lemma LogStands(n: Name, s0: State, base: nat, log: seq<ClientWrite>)
    ensures n in s0.volumes ==> LogGrows(n, s0, base, log, log)
  {
  }

  lemma LogGrowsOn(n: Name, s0: State, base: nat, log0: seq<ClientWrite>, log1: seq<ClientWrite>, log: seq<ClientWrite>)
    requires LogGrows(n, s0, base, log0, log1) && LogGrows(n, s0, base, log1, log)
    ensures LogGrows(n, s0, base, log0, log) && (log == log0 ==> log1 == log0)
  {
  }

  lemma Begins(w: World, n: Name)
    requires w.Valid() && n in w.st.rows
    ensures On(w, n, w.st, w.seen)
    ensures n in w.st.volumes ==> Intact(w, n, w.st, w.seen, |w.writes|) && w.st.volumes[n].gen < w.st.nextId
  {
    assert w.writes[|w.writes|..] == [];
  }

  lemma LogOf(w: World, n: Name, s0: State, seen0: set<State>, base: nat, job: Job)
    requires Accounted(w, n, s0, seen0, base, job)
    ensures base <= |w.writes| && job.log == w.writes[base..] && (|w.writes| == base ==> job.log == [])
    ensures On(w, n, s0, seen0)
  {
  }

  // ---- A late write -------------------------------------------------------------------

  /** An instance that can be upgraded to this image. */
  ghost predicate Upgradable(n: Name, s0: State, image: ImageRef)
  {
    && Wf(s0) && n in s0.rows && s0.rows[n].status == Running && IsUp(s0, n, s0.rows[n].cid)
    && n in s0.volumes && Resolve(s0, image).Some?
  }

  /**
    The first half of a run in which nothing fails, in the order of the code; a client
    writes `late` once the dump has been taken.
  */
  ghost function TearingDown(n: Name, s0: State, late: Cluster, image: ImageRef): (run: seq<State>)
    requires Upgradable(n, s0, image)
    ensures |run| == 7 && run[0] == s0 && run[1] == WithData(s0, n, late)
    ensures run[5].volumes == s0.volumes[n := s0.volumes[n].(data := late)]
    ensures run[6] == run[5].(volumes := run[5].volumes - {n})
    ensures run[6].rows == s0.rows[n := s0.rows[n].(status := Upgrading)] && run[6].tags == s0.tags
    ensures run[6].images == s0.images
    ensures run[6].archives == s0.archives + [Snapshot(n, s0.volumes[n].data)]
  {
    var cid := s0.rows[n].cid;
    var s1 := WithData(s0, n, late);                                                       // the client
    var s2 := s1.(archives := s1.archives + [Snapshot(n, s0.volumes[n].data)]);            // published
    var s3 := WithRow(s2, n, s2.rows[n].(status := Upgrading));
    var s4 := Moved(s3, cid, Down, false);                                                 // stopped
    var s5 := s4.(containers := Without(s4.containers, ById(cid)));                        // removed
    var s6 := s5.(volumes := s5.volumes - {n});                                            // and its volume
    [s0, s1, s2, s3, s4, s5, s6]
  }

  /** Then a new cluster comes up. */
  ghost function Starting(n: Name, s: State, image: ImageRef, shape: Shape): (run: seq<State>)
    requires n in s.rows && Resolve(s, image).Some?
    ensures |run| == 5 && run[0] == WithNewVolume(s, n)
    ensures
      var up, id := run[4], s.nextId + 1;
      && up.rows == s.rows[n := s.rows[n].(cid := id)] && up.archives == s.archives && up.volumes == run[0].volumes
      && id in up.containers && up.containers[id] == Container(n, Resolve(s, image).value, shape, Up, true)
  {
    var id := s.nextId + 1;
    var t0 := WithNewVolume(s, n);
    var t1 := WithContainer(t0, n, Spec(image, shape));
    var t2 := WithRow(t1, n, t1.rows[n].(cid := id));
    var t3 := Moved(t2, id, Up, false);
    var t4 := Moved(t3, id, Up, true);                                                     // accepts connections
    [t0, t1, t2, t3, t4]
  }

  /** And `data` is restored into it. */
  ghost function Filling(n: Name, s: State, data: Cluster, image: ImageRef, shape: Shape): (run: seq<State>)
    requires n in s.rows && n in s.volumes
    ensures |run| == 4 && run[3].rows == s.rows[n := Row(Running, s.rows[n].cid, image, shape)]
    ensures run[3].archives == s.archives
    ensures run[3].volumes == s.volumes[n := s.volumes[n].(data := data)] && run[3].containers == s.containers
  {
    var t5 := WithData(s, n, FreshCluster);                                                // initdb
    var t6 := WithData(t5, n, data);                                                       // every database restored
    var t7 := WithRow(t6, n, t6.rows[n].(image := image, shape := shape));
    var t8 := WithRow(t7, n, t7.rows[n].(status := Running));
    [t5, t6, t7, t8]
  }

  ghost function BringingUp(n: Name, s: State, data: Cluster, image: ImageRef, shape: Shape): (run: seq<State>)
    requires n in s.rows && Resolve(s, image).Some?
    ensures |run| == 9 && run[0] == WithNewVolume(s, n)
    ensures
      var done, id := run[8], s.nextId + 1;
      && done.rows == s.rows[n := Row(Running, id, image, shape)] && done.archives == s.archives
      && n in done.volumes && done.volumes[n].data == data
      && id in done.containers && done.containers[id] == Container(n, Resolve(s, image).value, shape, Up, true)
  {
    var up := Starting(n, s, image, shape);
    up + Filling(n, up[4], data, image, shape)
  }

  lemma RestoresItself(n: Name, data: Cluster)
    requires Admin in data && forall db | db in data :: data[db].provider == "c" && !data[db].template
    ensures Guarded(n, Snapshot(n, data)) && Restored(data, Snapshot(n, data))
  {
    assert Listed(data) == data && Admin in Snapshot(n, data).metadata;
  }

  lemma BroughtUp(n: Name, s: State, data: Cluster, image: ImageRef, shape: Shape)
    requires n in s.rows && Resolve(s, image).Some? && Restored(data, Snapshot(n, data))
    ensures
      var done := BringingUp(n, s, data, image, shape)[8];
      && UpgradedTo(n, s, done, Snapshot(n, data), image, shape) && done.rows[n].status == Running
      && done.volumes[n].data == data
  {
    hide BringingUp, RestoredFor;
  }

  /**
    Whatever a client writes after the dump is what the volume holds when it is removed, and
    is not what the upgraded instance holds: that is the data of the dump.
  */
  lemma LateWriteLost(n: Name, s0: State, late: Cluster, image: ImageRef, shape: Shape)
      returns (down: seq<State>, up: seq<State>)
    requires Upgradable(n, s0, image) && Admin in s0.volumes[n].data && s0.volumes[n].data != late
    requires forall db | db in s0.volumes[n].data ::
      s0.volumes[n].data[db].provider == "c" && !s0.volumes[n].data[db].template
    ensures down == TearingDown(n, s0, late, image) && |down| == 7 && n in down[6].rows && Resolve(down[6], image).Some?
    ensures up == BringingUp(n, down[6], s0.volumes[n].data, image, shape) && |up| == 9
    // What the volume held when it was removed ...
    ensures OldVolume(n, s0, down[5]) && down[5].volumes[n].data == late && n !in down[6].volumes
    // ... and what the instance holds in the end, restored from a checked archive.
    ensures down[6].archives == s0.archives + [Snapshot(n, s0.volumes[n].data)]
    ensures Guarded(n, Snapshot(n, s0.volumes[n].data))
    ensures UpgradedTo(n, down[6], up[8], Snapshot(n, s0.volumes[n].data), image, shape)
    ensures up[8].rows[n].status == Running
    ensures up[8].volumes[n].data == s0.volumes[n].data != late
  {
    hide Wf, Guarded, RestoredFor, TearingDown, BringingUp, UpgradedTo, Listed;
    RestoresItself(n, s0.volumes[n].data);
    down := TearingDown(n, s0, late, image);
    BroughtUp(n, down[6], s0.volumes[n].data, image, shape);
    up := BringingUp(n, down[6], s0.volumes[n].data, image, shape);
  }
}
