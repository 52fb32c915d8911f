/** Startup reconciliation (internal/daemon/reconcile.go). */
module Reconcile {
  import opened Basics
  import opened Deployment

  /** What GetContainerStatus reports about a container id; `NoContainer` is the empty id. */
  datatype Observed = NoContainer | Gone | Seen(state: ContainerState)

  /** A status only an operation in flight writes. */
  predicate Interrupted(s: Status)
  {
    s.Creating? || s.Restoring? || s.Switching? || s.Reconfiguring? || s.Upgrading?
  }

  /** The startup status matrix; None leaves the row alone. */
  function Decide(stored: Status, observed: Observed): (r: Option<Status>)
    ensures stored.Error? ==> r.None?
    ensures r.Some? ==> r.value in {Error, Running, Stopped}
    ensures Interrupted(stored) || stored.Unclassified? ==> r == Some(Error)
    ensures r == Some(Running) ==> observed == Seen(Up)
    ensures r == Some(Stopped) ==> observed == Seen(Down)
  {
    if Interrupted(stored) || stored.Unclassified? then Some(Error)
    else
      match observed
      case NoContainer => if stored.Error? then None else Some(Error)
      case Gone => if stored.Error? then None else Some(Error)
      case Seen(Paused) => None
      case Seen(Restarting) => None
      case Seen(Up) => if stored.Error? || stored.Running? then None else Some(Running)
      case Seen(Down) => if stored.Error? || stored.Stopped? then None else Some(Stopped)
  }

  function Observe(s: State, id: ContainerId): Observed
  {
    if id == NoId then NoContainer else if id in s.containers then Seen(s.containers[id].state) else Gone
  }

  function Settled(s: State, row: Row): Row
  {
    match Decide(row.status, Observe(s, row.cid))
    case None => row
    case Some(status) => row.(status := status)
  }

  /** The pass over every row except those that could not be inspected or written. */
  function Reconciled(s: State, skipped: set<Name>): State
  {
    s.(rows := map n | n in s.rows :: if n in skipped then s.rows[n] else Settled(s, s.rows[n]))
  }

  /**
    Two passes settle what either of them could reach, and nothing else; so a second pass
    over what the first one reached changes nothing, and one that reaches more settles more.
  */
  lemma ReconcileComposes(s: State, skipped: set<Name>, again: set<Name>)
    ensures Reconciled(Reconciled(s, skipped), again) == Reconciled(s, skipped * again)
  {
    var t := Reconciled(s, skipped);
    assert forall n | n in s.rows && n !in skipped :: Settled(t, t.rows[n]) == t.rows[n];
    assert Reconciled(t, again).rows == Reconciled(s, skipped * again).rows;
  }

  /**
    What a row says after a pass that could inspect the instance, in terms of what Docker
    has: an operation in flight, an unknown status or a missing container means error, which
    is never cleared; otherwise the status is what the container shows, or stays if that is
    neither running nor stopped.
  */
  predicate Truthful(s: State, before: Row, after: Row)
  {
    && after == before.(status := after.status)
    && (before.status in {Error, Creating, Restoring, Switching, Reconfiguring, Upgrading} ==> after.status == Error)
    && (before.status.Unclassified? ==> after.status == Error)
    && (before.status in {Running, Stopped, Broken, BrokenPort, BrokenAuth} ==>
          after.status ==
            if before.cid == NoId || before.cid !in s.containers then Error
            else match s.containers[before.cid].state
              case Up => Running
              case Down => Stopped
              case Paused => before.status
              case Restarting => before.status)
  }

  /** Every row of `s` is that of `s0`, or tells the truth about it; nothing else differs. */
  ghost predicate TruthfulOrSame(s0: State, s: State)
  {
    && s == s0.(rows := s.rows) && s.rows.Keys == s0.rows.Keys
    && forall n | n in s0.rows :: s.rows[n] == s0.rows[n] || Truthful(s0, s0.rows[n], s.rows[n])
  }

  lemma ReconcileSettles(s: State, skipped: set<Name>)
    ensures
      var t := Reconciled(s, skipped);
      && TruthfulOrSame(s, t)
      && forall n | n in s.rows :: if n in skipped then t.rows[n] == s.rows[n] else Truthful(s, s.rows[n], t.rows[n])
  {
  }

  /** At every crash point of the pass some set of rows is settled and the rest untouched. */
  ghost predicate PartlyReconciled(s0: State, s: State)
  {
    exists skipped :: s == Reconciled(s0, skipped)
  }

  lemma PartlyIsTruthful(s0: State, s: State)
    requires PartlyReconciled(s0, s)
    ensures TruthfulOrSame(s0, s)
  {
    var skipped :| s == Reconciled(s0, skipped);
    ReconcileSettles(s0, skipped);
  }

  lemma PartlyReconciledBy(s0: State, s: State, skipped: set<Name>)
    requires s == Reconciled(s0, skipped)
    ensures PartlyReconciled(s0, s)
  {
  }

  /** Settling one more row of a partly reconciled catalogue. */
  lemma ReconciledStep(s0: State, pending: set<Name>, n: Name)
    requires n in pending && n in s0.rows
    ensures
      var s := Reconciled(s0, pending);
      && n in s.rows && s.rows[n] == s0.rows[n] && s.containers == s0.containers
      && Reconciled(s0, pending - {n}) == WithRow(s, n, Settled(s, s0.rows[n]))
  {
    var s := Reconciled(s0, pending);
    assert Reconciled(s0, pending - {n}).rows == WithRow(s, n, Settled(s, s0.rows[n])).rows;
  }

  lemma NothingSettled(s: State)
    ensures Reconciled(s, s.rows.Keys) == s
  {
    assert Reconciled(s, s.rows.Keys).rows == s.rows;
  }

  lemma RowIsOwn(s: State, n: Name)
    requires Wf(s) && n in s.rows
    ensures s.rows[n].cid < s.nextId && IdIsOwn(s, n, s.rows[n].cid)
  {
  }

  /** One row of the pass; `pending` are the rows not settled yet. */
  method ReconcileOne(w: World, n: Name, ghost s0: State, ghost pending: set<Name>) returns (settled: bool)
    requires w.Valid() && n in pending && n in s0.rows && w.st == Reconciled(s0, pending)
    modifies w`st, w`seen, w`hostFaults, w`storeFaults
    ensures w.Valid() && w.seen == old(w.seen) + {w.st}
    ensures w.st == Reconciled(s0, if settled then pending - {n} else pending)
    ensures w.hostFaults >= old(w.hostFaults) && w.storeFaults >= old(w.storeFaults)
    ensures w.hostFaults == old(w.hostFaults) && w.storeFaults == old(w.storeFaults) ==> settled
  {
    hide Reconciled, Wf;
    ReconciledStep(s0, pending, n);
    var row := w.st.rows[n];
    RowIsOwn(w.st, n);
    var observed := NoContainer;
    if row.cid != NoId {
      var found, failed := w.Inspect(ById(row.cid));
      if failed { return false; }
      observed := if found.Some? then Seen(w.st.containers[row.cid].state) else Gone;
    }
    var decision := Decide(row.status, observed);
    if decision.Some? && decision.value != row.status {
      settled := w.WriteRow(n, row.(status := decision.value));
      if !settled { return; }
    }
    settled := true;
    assert WithRow(old(w.st), n, old(w.st).rows[n]).rows == old(w.st).rows;
  }

  method ReconcileInstances(w: World) returns (ghost skipped: set<Name>)
    requires w.Valid()
    modifies w`st, w`seen, w`hostFaults, w`storeFaults
    ensures w.Valid() && w.st == Reconciled(old(w.st), skipped)
    ensures old(w.seen) <= w.seen
    ensures forall s | s in w.seen && s !in old(w.seen) :: PartlyReconciled(old(w.st), s) && Wf(s)
    // What the rows say in the end, and at every crash point.
    ensures forall n | n in old(w.st).rows ::
      && n in w.st.rows
      && (n in skipped ==> w.st.rows[n] == old(w.st).rows[n])
      && (n !in skipped ==> Truthful(old(w.st), old(w.st).rows[n], w.st.rows[n]))
    ensures forall s | s in w.seen && s !in old(w.seen) :: TruthfulOrSame(old(w.st), s)
    ensures w.hostFaults >= old(w.hostFaults) && w.storeFaults >= old(w.storeFaults)
    ensures w.hostFaults == old(w.hostFaults) && w.storeFaults == old(w.storeFaults) ==> skipped == {}
  {
    hide Wf, Reconciled, PartlyReconciled, Truthful, TruthfulOrSame;
    ghost var s0 := w.st;
    var todo := w.st.rows.Keys;
    skipped := {};
    NothingSettled(s0);
    var listed := w.Attempt();
    if !listed { todo, skipped := {}, todo; }
    assert skipped + todo == s0.rows.Keys;
    while todo != {}
      invariant todo <= s0.rows.Keys && skipped !! todo && w.Valid()
      invariant w.st == Reconciled(s0, skipped + todo)
      invariant old(w.seen) <= w.seen
      invariant forall s | s in w.seen && s !in old(w.seen) :: PartlyReconciled(s0, s) && Wf(s)
      invariant w.hostFaults >= old(w.hostFaults) && w.storeFaults >= old(w.storeFaults)
      invariant w.hostFaults == old(w.hostFaults) && w.storeFaults == old(w.storeFaults) ==> skipped == {}
      decreases todo
    {
      var n :| n in todo;
      ghost var pending := skipped + todo;
      var settled := ReconcileOne(w, n, s0, pending);
      todo := todo - {n};
      if !settled { skipped := skipped + {n}; }
      assert skipped + todo == if settled then pending - {n} else pending;
      PartlyReconciledBy(s0, w.st, skipped + todo);
    }
    assert skipped + todo == skipped;
    ReconcileSettles(s0, skipped);
    forall s | s in w.seen && s !in old(w.seen) ensures TruthfulOrSame(s0, s) {
      PartlyIsTruthful(s0, s);
    }
  }
}
