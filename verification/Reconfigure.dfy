/**
  Changing the shape or the image of an existing instance
  (internal/operations/rdbms_reconfigure.go and rdbms_recreate.go), both on top of the
  recreate-or-roll-back protocol.
*/
module Reconfigure {
  import opened Basics
  import opened Deployment
  import opened ClusterRecreate

  /** An unset field keeps the current value; the empty group means "keep". */
  datatype Request = Request(group: string, cpuCores: Option<int>, ramMB: Option<int>, port: Option<int>)

  datatype Outcome =
    | NotFound            // no such row
    | Rejected            // the request cannot work; nothing was touched
    | NothingToChange     // refused as a no-op
    | Preflight           // refused by the recreate protocol before it touched anything
    | RolledBack
    | ApplyFailed         // the change and its rollback failed, or the new id was not recorded
    | Unrecorded          // the new container serves, but a catalogue write failed
    | Unread              // everything was recorded, but reading the row back failed
    | Done

  function Merged(shape: Shape, req: Request): Shape
  {
    shape.(
      group := if req.group != "" then req.group else shape.group,
      cpuCores := if req.cpuCores.Some? then req.cpuCores.value else shape.cpuCores,
      ramMB := if req.ramMB.Some? then req.ramMB.value else shape.ramMB,
      port := if req.port.Some? then req.port.value else shape.port)
  }

  /** The check that answers "nothing to change". */
  predicate WouldRefuse(s: State, n: Name, req: Request)
  {
    n in s.rows && Merged(s.rows[n].shape, req) == s.rows[n].shape && s.rows[n].status != Error
  }

  /** A stored shape between the old one and the target asks for the same target again. */
  lemma MergedAgain(shape: Shape, s0: Shape, req: Request)
    requires Between(shape, s0, Merged(s0, req))
    ensures Merged(shape, req) == Merged(s0, req)
  {
  }

  /**
    The two inputs on which a failed attempt blocks its own retry.  A request that changes
    nothing is let through for an instance in "error", and the status a refusal or a rollback
    leaves turns it away.  A request that changes something is turned away once its shape has
    been recorded but the final status has not.
  */
  lemma FailedAttemptBlocksRetry(s: State, n: Name, req: Request, after: Status)
    requires n in s.rows && after in {Reconfiguring, Running}
    ensures
      var row := s.rows[n];
      var target := Merged(row.shape, req);
      && (row.status == Error || target != row.shape ==> !WouldRefuse(s, n, req))
      && (WouldRefuse(WithRow(s, n, row.(status := after)), n, req) <==> target == row.shape)
      && WouldRefuse(WithRow(s, n, row.(status := Reconfiguring, shape := target)), n, req)
  {
    MergedAgain(Merged(s.rows[n].shape, req), s.rows[n].shape, req);
  }

  /** Each stored field is the old value or the target's. */
  predicate Between(shape: Shape, s0: Shape, target: Shape)
  {
    && shape.major == s0.major
    && (shape.group == s0.group || shape.group == target.group)
    && (shape.port == s0.port || shape.port == target.port)
    && (shape.cpuCores == s0.cpuCores || shape.cpuCores == target.cpuCores)
    && (shape.ramMB == s0.ramMB || shape.ramMB == target.ramMB)
  }

  /** The container the row names has this shape, is up, and has answered a readiness probe. */
  predicate Serves(s: State, n: Name, shape: Shape)
  {
    && n in s.rows && Owns(s, n, s.rows[n].cid)
    && s.containers[s.rows[n].cid].shape == shape
    && s.containers[s.rows[n].cid].state == Up && s.containers[s.rows[n].cid].accepted
  }

  /** What holds at every crash point of a reconfigure towards `target`. */
  ghost predicate ReconfigurePoint(n: Name, s0: State, target: Shape, s: State)
  {
    && SameElsewhere(n, s0, s) && s.volumes == s0.volumes && s.archives == s0.archives
    && n in s0.rows && n in s.rows && s.rows[n].image == s0.rows[n].image
    && Between(s.rows[n].shape, s0.rows[n].shape, target)
    && (s.rows[n].shape != s0.rows[n].shape ==> Serves(s, n, target))
  }

  ghost predicate ReconfigureAlong(seen0: set<State>, seen: set<State>, n: Name, s0: State, target: Shape)
  {
    seen0 <= seen && forall s | s in seen && s !in seen0 :: ReconfigurePoint(n, s0, target, s) && Wf(s)
  }

  /** Between the fixed bounds, and no more than the machine has. */
  predicate Affordable(host: Host, cpuCores: int, ramMB: int)
  {
    1 <= cpuCores <= 1024 && 128 <= ramMB <= 1048576 && cpuCores <= host.cores && ramMB <= host.memoryMB
  }

  /**
    The request asks for something, for a port that is this instance's or that it can have,
    and for resources, if any, that together with those it keeps can be had.
  */
  ghost predicate Acceptable(host: Host, s: State, n: Name, req: Request)
    requires n in s.rows
  {
    && req != Request("", None, None, None)
    && (req.cpuCores.Some? || req.ramMB.Some? ==>
          var target := Merged(s.rows[n].shape, req);
          Affordable(host, target.cpuCores, target.ramMB))
    && (req.port.Some? ==>
          1 <= req.port.value <= 65535 && (req.port.value != s.rows[n].shape.port ==> !PortTaken(s, req.port.value)))
  }

  /** Merge the request onto the current shape and refuse what cannot work. */
  method ResolveTarget(w: World, n: Name, req: Request) returns (t: Shape, ok: bool)
    requires n in w.st.rows
    modifies w`hostFaults
    ensures ok ==> t == Merged(w.st.rows[n].shape, req) && Acceptable(w.host, w.st, n, req)
    ensures w.hostFaults >= old(w.hostFaults) && (ok ==> w.hostFaults == old(w.hostFaults))
    ensures !ok ==> !Acceptable(w.host, w.st, n, req) || w.hostFaults > old(w.hostFaults)
  {
    t, ok := w.st.rows[n].shape, false;
    if req.group == "" && req.cpuCores.None? && req.ramMB.None? && req.port.None? { return; }
    if req.group != "" { t := t.(group := req.group); }
    if req.cpuCores.Some? { t := t.(cpuCores := req.cpuCores.value); }
    if req.ramMB.Some? { t := t.(ramMB := req.ramMB.value); }
    if req.cpuCores.Some? || req.ramMB.Some? {
      if t.cpuCores < 1 || t.cpuCores > 1024 || t.ramMB < 128 || t.ramMB > 1048576 { return; }
      var measured := w.Attempt();         // the host's own resources could be read
      if !measured || t.cpuCores > w.host.cores || t.ramMB > w.host.memoryMB { return; }
    }
    if req.port.Some? {
      t := t.(port := req.port.value);
      if t.port < 1 || t.port > 65535 { return; }
      if t.port != w.st.rows[n].shape.port {
        var lookupOk := w.Attempt();
        if !lookupOk { return; }
        if m :| m in w.st.rows && w.st.rows[m].shape.port == t.port { return; }
        var free := w.Attempt();           // nothing answers on that port of the host
        if !free { return; }
      }
    }
    ok := true;
  }

  /** One commit write while a container of the target shape is serving. */
  method CommitRow(w: World, n: Name, t: Shape, row: Row, ghost s0: State, ghost seen0: set<State>) returns (ok: bool)
    requires w.Valid() && Serves(w.st, n, t)
    requires ReconfigureAlong(seen0, w.seen, n, s0, t) && ReconfigurePoint(n, s0, t, w.st)
    requires row.cid == w.st.rows[n].cid && row.image == s0.rows[n].image && Between(row.shape, s0.rows[n].shape, t)
    modifies w`st, w`seen, w`storeFaults
    ensures w.Valid() && Serves(w.st, n, t)
    ensures ReconfigureAlong(seen0, w.seen, n, s0, t) && ReconfigurePoint(n, s0, t, w.st)
    ensures w.st.rows[n] == if ok then row else old(w.st).rows[n]
    ensures w.storeFaults == old(w.storeFaults) + (if ok then 0 else 1)
  {
    ok := RecordRow(w, n, row);
    SameElsewhereComposes(n, s0, old(w.st));
  }

  /** Record the new shape field group by field group, then the status. */
  method CommitShape(w: World, n: Name, t: Shape, ghost s0: State, ghost seen0: set<State>) returns (ok: bool)
    requires w.Valid() && Serves(w.st, n, t)
    requires ReconfigureAlong(seen0, w.seen, n, s0, t) && ReconfigurePoint(n, s0, t, w.st)
    requires w.st.rows[n].shape == s0.rows[n].shape && t.major == s0.rows[n].shape.major
    modifies w`st, w`seen, w`storeFaults
    ensures w.Valid() && ReconfigureAlong(seen0, w.seen, n, s0, t) && ReconfigurePoint(n, s0, t, w.st)
    ensures w.storeFaults >= old(w.storeFaults) && (!ok ==> w.storeFaults > old(w.storeFaults))
    ensures ok ==> Serves(w.st, n, t) && w.st.rows[n].shape == t && w.st.rows[n].status == Running
    ensures !ok ==> w.st.rows[n].status == old(w.st).rows[n].status
  {
    hide Wf, SameElsewhere, Serves, ReconfigureAlong;
    var stored := w.st.rows[n].shape;
    if t.group != stored.group {
      ok := CommitRow(w, n, t, w.st.rows[n].(shape := stored.(group := t.group)), s0, seen0);
      if !ok { return; }
    }
    if t.cpuCores != stored.cpuCores || t.ramMB != stored.ramMB || t.port != stored.port {
      var shape := w.st.rows[n].shape.(port := t.port, cpuCores := t.cpuCores, ramMB := t.ramMB);
      ok := CommitRow(w, n, t, w.st.rows[n].(shape := shape), s0, seen0);
      if !ok { return; }
    }
    ok := CommitRow(w, n, t, w.st.rows[n].(status := Running), s0, seen0);
  }

  /** Everything that is looked at before anything is touched; `Done` lets the request pass. */
  method Examine(w: World, n: Name, req: Request) returns (r: Outcome, t: Shape)
    modifies w`hostFaults
    ensures w.hostFaults >= old(w.hostFaults) && r in {NotFound, Rejected, NothingToChange, Done}
    ensures n !in w.st.rows ==> r.NotFound?
    ensures r.Done? ==>
      && n in w.st.rows && t == Merged(w.st.rows[n].shape, req) && Acceptable(w.host, w.st, n, req)
      && !WouldRefuse(w.st, n, req) && t.group in w.host.groups && w.st.rows[n].shape.group in w.host.groups
    ensures r.NothingToChange? ==> WouldRefuse(w.st, n, req)
    ensures r.Done? ==> w.hostFaults == old(w.hostFaults)
    ensures w.hostFaults == old(w.hostFaults) ==>
      r == if Verdict(w.host, w.st, n, req).Preflight? then Done else Verdict(w.host, w.st, n, req)
  {
    hide Changeable;
    t := Shape(0, 0, 0, 0, "");
    var lookupOk := w.Attempt();
    if n !in w.st.rows || !lookupOk { return NotFound, t; }
    var row := w.st.rows[n];
    var resolved;
    t, resolved := ResolveTarget(w, n, req);
    if !resolved { return Rejected, t; }
    if t == row.shape && row.status != Error { return NothingToChange, t; }
    if t.group !in w.host.groups || row.shape.group !in w.host.groups { return Rejected, t; }
    var readable := w.Attempt();           // both groups, and the stored password
    r := if readable then Done else Rejected;
  }

  /** What becomes of a request when no call fails. */
  ghost function Verdict(host: Host, s: State, n: Name, req: Request): Outcome
  {
    if n !in s.rows then NotFound
    else
      var row := s.rows[n];
      var target := Merged(row.shape, req);
      if !Acceptable(host, s, n, req) then Rejected
      else if WouldRefuse(s, n, req) then NothingToChange
      else if target.group !in host.groups || row.shape.group !in host.groups then Rejected
      else if !Changeable(host, s, n, Spec(row.image, target)) then Preflight
      else Done
  }

  method ReconfigureInstance(w: World, n: Name, req: Request) returns (r: Outcome)
    requires w.Valid()
    modifies w`st, w`seen, w`hostFaults, w`storeFaults
    ensures w.hostFaults >= old(w.hostFaults)
    ensures w.Valid() && old(w.seen) <= w.seen && w.storeFaults >= old(w.storeFaults)
    ensures r in {NotFound, Rejected, NothingToChange} ==> w.st == old(w.st) && w.seen == old(w.seen)
    ensures r.NotFound? <== n !in old(w.st).rows
    // The stored shape moves only while a ready container of the target shape is recorded.
    ensures n in old(w.st).rows ==>
      var target := Merged(old(w.st).rows[n].shape, req);
      ReconfigureAlong(old(w.seen), w.seen, n, old(w.st), target) && ReconfigurePoint(n, old(w.st), target, w.st)
    ensures r in {Done, Unread} ==>
      && n in old(w.st).rows && w.st.rows[n].shape == Merged(old(w.st).rows[n].shape, req)
      && Serves(w.st, n, w.st.rows[n].shape) && w.st.rows[n].status == Running
    ensures r.NothingToChange? ==> WouldRefuse(old(w.st), n, req)
    // When a failed attempt makes the same request a no-op, whatever failed: a request that
    // changes something, exactly if its shape was recorded but its final status was not.
    ensures r in {Preflight, RolledBack, ApplyFailed, Unrecorded} ==>
      var target := Merged(old(w.st).rows[n].shape, req);
      WouldRefuse(w.st, n, req) <==>
        && w.st.rows[n].status != Error
        && (target == old(w.st).rows[n].shape || (r.Unrecorded? && w.st.rows[n].shape == target))
    ensures r.Unrecorded? ==> w.st.rows[n].status in {Reconfiguring, old(w.st).rows[n].status}
    // ... and one that changes nothing, as long as catalogue writes land.
    ensures r in {Preflight, RolledBack, ApplyFailed, Unrecorded} && w.storeFaults == old(w.storeFaults) ==>
      (WouldRefuse(w.st, n, req) <==>
        Merged(old(w.st).rows[n].shape, req) == old(w.st).rows[n].shape && r in {Preflight, RolledBack})
    ensures r.RolledBack? && w.storeFaults == old(w.storeFaults) ==>
      Serves(w.st, n, old(w.st).rows[n].shape) && w.st.rows[n].status == Running
    ensures r.Preflight? && w.storeFaults == old(w.storeFaults) ==>
      if old(w.st).rows[n].status == Error
      then w.st == WithRow(old(w.st), n, old(w.st).rows[n].(status := Reconfiguring))
      else w.st == old(w.st)
    ensures r.Unrecorded? ==> w.storeFaults > old(w.storeFaults)
    // Whatever is touched was acceptable and of known groups; if no call fails, that decides everything.
    ensures !(r in {NotFound, Rejected, NothingToChange}) ==>
      && Acceptable(w.host, old(w.st), n, req) && old(w.st).rows[n].shape.group in w.host.groups
      && Merged(old(w.st).rows[n].shape, req).group in w.host.groups
    ensures w.hostFaults == old(w.hostFaults) && w.storeFaults == old(w.storeFaults) ==>
      r == Verdict(w.host, old(w.st), n, req)
  {
    hide Wf, Foreign, ImageInUse, SurvivorReachable, Changeable, Affordable;
    var t;
    r, t := Examine(w, n, req);
    if !r.Done? { return; }
    hide Acceptable;
    var rolledBack, err := ApplyMarked(w, n, Reconfiguring, Spec(w.st.rows[n].image, t));
    if !err.NoErr? {
      return if err.Invalid? then Preflight else if rolledBack then RolledBack else ApplyFailed;
    }
    var committed := CommitShape(w, n, t, old(w.st), old(w.seen));
    var readBack := w.Attempt();
    return if !committed then Unrecorded else if readBack then Done else Unread;
  }

  /** What holds at every crash point of a switch to `image`, serving version `major`. */
  ghost predicate SwitchPoint(n: Name, s0: State, image: ImageRef, major: nat, s: State)
  {
    && SameElsewhere(n, s0, s) && s.volumes == s0.volumes && s.archives == s0.archives
    && n in s0.rows && n in s.rows
    && ( || (s.rows[n].image == s0.rows[n].image && s.rows[n].shape == s0.rows[n].shape)
         || ( && s.rows[n].image == image && s.rows[n].shape == s0.rows[n].shape.(major := major)
              && Serves(s, n, s.rows[n].shape)
              && Resolve(s0, image) == Some(s.containers[s.rows[n].cid].image)))
  }

  ghost predicate SwitchAlong(seen0: set<State>, seen: set<State>, n: Name, s0: State, image: ImageRef, major: nat)
  {
    seen0 <= seen && forall s | s in seen && s !in seen0 :: SwitchPoint(n, s0, image, major, s) && Wf(s)
  }

  /** What an instance is switched to. */
  function Switched(s: State, n: Name, image: ImageRef, major: nat): Spec
    requires n in s.rows
  {
    Spec(image, s.rows[n].shape.(major := major))
  }

  /** Bring the new image up; `Done` means it serves and only the catalogue is left to write. */
  method AttemptImage(w: World, n: Name, image: ImageRef, major: nat) returns (r: Outcome)
    requires w.Valid() && n in w.st.rows
    modifies w`st, w`seen, w`hostFaults, w`storeFaults
    ensures w.hostFaults >= old(w.hostFaults)
    ensures w.Valid() && old(w.seen) <= w.seen && w.storeFaults >= old(w.storeFaults)
    ensures SwitchAlong(old(w.seen), w.seen, n, old(w.st), image, major)
    ensures SwitchPoint(n, old(w.st), image, major, w.st)
    ensures r in {Done, RolledBack, Preflight, ApplyFailed}
    ensures r.Done? ==>
      && Serves(w.st, n, old(w.st).rows[n].shape.(major := major))
      && Resolve(old(w.st), image) == Some(w.st.containers[w.st.rows[n].cid].image)
    ensures r.RolledBack? && w.storeFaults == old(w.storeFaults) ==>
      && Serves(w.st, n, old(w.st).rows[n].shape) && w.st.rows[n].status == Running
      && RollbackImage(old(w.st), n, old(w.st).rows[n].image) == Some(w.st.containers[w.st.rows[n].cid].image)
    ensures r.Preflight? && w.storeFaults == old(w.storeFaults) ==>
      if old(w.st).rows[n].status == Error
      then w.st == WithRow(old(w.st), n, old(w.st).rows[n].(status := Switching))
      else w.st == old(w.st)
    ensures w.hostFaults == old(w.hostFaults) && w.storeFaults == old(w.storeFaults) ==>
      r == if Changeable(w.host, old(w.st), n, Switched(old(w.st), n, image, major)) then Done else Preflight
  {
    hide Wf, SameElsewhere, SurvivorReachable, ImageInUse, Changeable;
    var rolledBack, err := ApplyMarked(w, n, Switching, Switched(w.st, n, image, major));
    r := if err.NoErr? then Done else if err.Invalid? then Preflight
         else if rolledBack then RolledBack else ApplyFailed;
  }

  method CommitImage(w: World, n: Name, image: ImageRef, major: nat, ghost s0: State, ghost seen0: set<State>)
      returns (r: Outcome)
    requires w.Valid() && SwitchAlong(seen0, w.seen, n, s0, image, major) && SwitchPoint(n, s0, image, major, w.st)
    requires Serves(w.st, n, s0.rows[n].shape.(major := major))
    requires Resolve(s0, image) == Some(w.st.containers[w.st.rows[n].cid].image)
    modifies w`st, w`seen, w`storeFaults, w`hostFaults
    ensures w.Valid() && SwitchAlong(seen0, w.seen, n, s0, image, major) && SwitchPoint(n, s0, image, major, w.st)
    ensures r in {Done, Unread, Unrecorded} && w.storeFaults >= old(w.storeFaults) && w.hostFaults >= old(w.hostFaults)
    ensures r.Unrecorded? ==> w.storeFaults > old(w.storeFaults)
    ensures r.Unread? ==> w.hostFaults > old(w.hostFaults)
    ensures r in {Done, Unread} ==>
      && w.st.rows[n].image == image && w.st.rows[n].shape == s0.rows[n].shape.(major := major)
      && Serves(w.st, n, w.st.rows[n].shape) && w.st.rows[n].status == Running
      && Resolve(s0, image) == Some(w.st.containers[w.st.rows[n].cid].image)
  {
    SameElsewhereComposes(n, s0, w.st);
    var ok := RecordRow(w, n, w.st.rows[n].(image := image, shape := w.st.rows[n].shape.(major := major)));
    if !ok { return Unrecorded; }
    SameElsewhereComposes(n, s0, w.st);
    ok := RecordStatus(w, n, Running);
    if !ok { return Unrecorded; }
    var readBack := w.Attempt();
    r := if readBack then Done else Unread;
  }

  /** Shared by switch and update: the same protocol, changing the image instead of the shape. */
  method RecreateOnImage(w: World, n: Name, image: ImageRef, major: nat) returns (r: Outcome)
    requires w.Valid() && n in w.st.rows
    modifies w`st, w`seen, w`hostFaults, w`storeFaults
    ensures w.hostFaults >= old(w.hostFaults)
    ensures w.Valid() && old(w.seen) <= w.seen && w.storeFaults >= old(w.storeFaults)
    ensures SwitchAlong(old(w.seen), w.seen, n, old(w.st), image, major)
    ensures SwitchPoint(n, old(w.st), image, major, w.st)
    ensures r in {Done, Unread} ==>
      && w.st.rows[n].image == image && w.st.rows[n].shape == old(w.st).rows[n].shape.(major := major)
      && Serves(w.st, n, w.st.rows[n].shape) && w.st.rows[n].status == Running
      && Resolve(old(w.st), image) == Some(w.st.containers[w.st.rows[n].cid].image)
    ensures r.RolledBack? && w.storeFaults == old(w.storeFaults) ==>
      && Serves(w.st, n, old(w.st).rows[n].shape) && w.st.rows[n].status == Running
      && RollbackImage(old(w.st), n, old(w.st).rows[n].image) == Some(w.st.containers[w.st.rows[n].cid].image)
    ensures r.Preflight? && w.storeFaults == old(w.storeFaults) ==>
      if old(w.st).rows[n].status == Error
      then w.st == WithRow(old(w.st), n, old(w.st).rows[n].(status := Switching))
      else w.st == old(w.st)
    ensures r.Unrecorded? ==> w.storeFaults > old(w.storeFaults)
    ensures w.hostFaults == old(w.hostFaults) && w.storeFaults == old(w.storeFaults) ==>
      r ==
        if old(w.st).rows[n].shape.group !in w.host.groups then Rejected
        else if Changeable(w.host, old(w.st), n, Switched(old(w.st), n, image, major)) then Done else Preflight
    ensures !r.Rejected? ==> old(w.st).rows[n].shape.group in w.host.groups
  {
    if w.st.rows[n].shape.group !in w.host.groups { return Rejected; }
    var readable := w.Attempt();           // the password, and the group
    if !readable { return Rejected; }
    hide Wf, SameElsewhere, ImageInUse, SwitchAlong, Serves, Changeable;
    r := AttemptImage(w, n, image, major);
    if r.Done? {
      r := CommitImage(w, n, image, major, old(w.st), old(w.seen));
    }
  }
}
