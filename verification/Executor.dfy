/**
  The operation executor and the daemon's shutdown (internal/operations/executor.go and
  Shutdown in internal/daemon/server.go), as the interleaved steps of any number of
  goroutines over one mutex, one `closing` flag and the background context.
*/
module Executor {

  type Tid = nat

  datatype Kind = Read | Write

  /** Where a goroutine is; every constructor is a point at which it can be preempted. */
  datatype Pc =
    | Idle
    // Execute
    | Entering(kind: Kind)            // `closing` not looked at yet
    | Queued(kind: Kind)              // past the first look, waiting for the mutex
    | Holding(kind: Kind)             // has the mutex, second look to come
    | Working(kind: Kind)             // inside op.Execute under the mutex
    | Leaving                         // about to release the mutex
    // ExecuteRead
    | Reading(kind: Kind)             // inside op.Execute without the mutex
    // Drain and the goroutine it starts; `late`: `closing` was set when Drain was called
    | Waiting(g: Tid)
    | Drained(late: bool)             // Drain is returning nil
    | Probing(late: bool)
    | ProbeHolds(late: bool)
    | Probed(late: bool)              // the idle channel is closed
    // Shutdown
    | StoppingHttp | BeginDrain | AwaitDrain(g: Tid) | Cancelling | Releasing

  datatype State = State(
    threads: map<Tid, Pc>,
    mutex: set<Tid>,                  // who holds it; a lock step needs it empty
    closing: bool,
    expired: bool,                    // the context given to Shutdown is done
    cancelled: bool,                  // the background context
    released: bool)                   // the data directory lock

  ghost predicate Init(s: State)
  {
    && s.mutex == {} && !s.closing && !s.expired && !s.cancelled && !s.released
    && forall t | t in s.threads :: s.threads[t] == Idle
  }

  /** The effect of one step besides moving the goroutine to `pc`. */
  datatype Effect =
    | Go(pc: Pc)
    | Lock(pc: Pc)                    // waits until the mutex is free
    | Unlock(pc: Pc)
    | Fork(pc: Pc, g: Tid)            // starts Drain's goroutine
    | Close(pc: Pc)
    | Cancel(pc: Pc)
    | Release(pc: Pc)

  function Do(s: State, t: Tid, e: Effect): State
  {
    State(
      (if e.Fork? then s.threads[e.g := Probing(s.closing)] else s.threads)[t := e.pc],
      if e.Lock? then {t} else if e.Unlock? then s.mutex - {t} else s.mutex,
      s.closing || e.Close?,
      s.expired,
      s.cancelled || e.Cancel?,
      s.released || e.Release?)
  }

  predicate HasProbed(s: State, g: Tid)
  {
    g in s.threads && s.threads[g].Probed?
  }

  /** What goroutine `t` may do next: the bodies of the methods, point by point. */
  predicate Allowed(s: State, t: Tid, e: Effect)
  {
    && t in s.threads
    && (e.Lock? ==> s.mutex == {})
    && (e.Fork? ==> e.g !in s.threads)
    && match s.threads[t]
       case Idle =>
         || (e.Go? && e.pc.Entering?)
         || e == Go(Reading(Read))                // ExecuteRead turns a write operation away
         || e == Close(Idle)
         || (e.Fork? && e.pc == Waiting(e.g))
         || e == Close(StoppingHttp)
       case Entering(kind) => e == Go(if s.closing then Idle else Queued(kind))
       case Queued(kind) => e == Lock(Holding(kind))
       case Holding(kind) => e == Go(if s.closing then Leaving else Working(kind))
       case Working(_) => e == Go(Leaving)
       case Leaving => e == Unlock(Idle)
       case Reading(_) => e == Go(Idle)
       case Waiting(g) =>
         || (HasProbed(s, g) && e == Go(Drained(s.threads[g].late)))
         || e == Go(Idle)                         // its context is done
       case Drained(_) => e == Go(Idle)
       case Probing(late) => e == Lock(ProbeHolds(late))
       case ProbeHolds(late) => e == Unlock(Probed(late))
       case Probed(_) => false
       case StoppingHttp => e == Go(BeginDrain)   // however the HTTP server stopped
       case BeginDrain => e.Fork? && e.pc == AwaitDrain(e.g)
       case AwaitDrain(g) => (HasProbed(s, g) || s.expired) && e == Go(Cancelling)
       case Cancelling => e == Cancel(Releasing)
       case Releasing => e == Release(Idle)
  }

  ghost predicate Next(s: State, s': State)
  {
    || (exists t, e :: Allowed(s, t, e) && s' == Do(s, t, e))
    || s' == s.(expired := true)
    || (exists t: Tid :: t !in s.threads && s' == s.(threads := s.threads[t := Idle]))   // a new caller
  }

  ghost predicate Run(r: seq<State>)
  {
    |r| > 0 && Init(r[0]) && forall i | 0 < i < |r| :: Next(r[i - 1], r[i])
  }

  // ---- Invariant ----------------------------------------------------------------------

  predicate NeedsMutex(pc: Pc)
  {
    pc.Holding? || pc.Working? || pc.Leaving? || pc.ProbeHolds?
  }

  /** No operation is running, and none will: shutdown has begun and the mutex was seen free. */
  predicate Quiesced(s: State)
  {
    s.closing && forall t | t in s.threads :: !s.threads[t].Working?
  }

  predicate IsProbe(s: State, g: Tid)
  {
    g in s.threads && (s.threads[g].Probing? || s.threads[g].ProbeHolds? || s.threads[g].Probed?)
  }

  ghost predicate Local(s: State, pc: Pc)
  {
    match pc
    case Reading(kind) => kind == Read
    case Waiting(g) => IsProbe(s, g)
    case Probing(late) => late ==> s.closing
    case ProbeHolds(late) => late ==> Quiesced(s)
    case Probed(late) => late ==> Quiesced(s)
    case Drained(late) => late ==> Quiesced(s)
    case StoppingHttp => s.closing
    case BeginDrain => s.closing
    case AwaitDrain(g) => s.closing && IsProbe(s, g) && s.threads[g].late
    case Cancelling => s.expired || Quiesced(s)
    case _ => true
  }

  ghost predicate Inv(s: State)
  {
    && (forall t | t in s.threads && NeedsMutex(s.threads[t]) :: s.mutex == {t})
    && (forall t | t in s.mutex :: t in s.threads && NeedsMutex(s.threads[t]))
    && (forall t | t in s.threads :: Local(s, s.threads[t]))
    && (s.cancelled ==> s.expired || Quiesced(s))
    && (s.released ==> s.cancelled)
    && (forall t | t in s.threads && s.threads[t].Releasing? :: s.cancelled)
  }

  /** No operation starts once shutdown has begun. */
  lemma StepQuiesced(s: State, t: Tid, e: Effect)
    requires Allowed(s, t, e) && Quiesced(s)
    ensures Quiesced(Do(s, t, e))
  {
  }

  lemma StepMutex(s: State, t: Tid, e: Effect)
    requires Inv(s) && Allowed(s, t, e)
    ensures
      var s' := Do(s, t, e);
      && (forall u | u in s'.threads && NeedsMutex(s'.threads[u]) :: s'.mutex == {u})
      && (forall u | u in s'.mutex :: u in s'.threads && NeedsMutex(s'.threads[u]))
  {
    hide Local, Quiesced;
    var s' := Do(s, t, e);
    assert e.Unlock? ==> NeedsMutex(s.threads[t]);
    assert NeedsMutex(e.pc) <==> e.Lock? || (NeedsMutex(s.threads[t]) && !e.Unlock?);
    forall u | u in s'.threads && NeedsMutex(s'.threads[u]) ensures s'.mutex == {u} {
      if u != t {
        assert s.mutex == {u};
      }
    }
  }

  lemma StepLocalSelf(s: State, t: Tid, e: Effect)
    requires Inv(s) && Allowed(s, t, e)
    ensures Local(Do(s, t, e), e.pc)
  {
    if Quiesced(s) { StepQuiesced(s, t, e); }
  }

  lemma LocalOther(s: State, s': State, t: Tid, u: Tid)
    requires Inv(s) && u in s.threads && u != t && (Quiesced(s) ==> Quiesced(s'))
    requires s.closing ==> s'.closing
    requires s.expired ==> s'.expired
    requires forall g | IsProbe(s, g) :: IsProbe(s', g) && s'.threads[g].late == s.threads[g].late
    ensures Local(s', s.threads[u])
  {
    assert Local(s, s.threads[u]);
  }

  lemma InvStep(s: State, t: Tid, e: Effect)
    requires Inv(s) && Allowed(s, t, e)
    ensures Inv(Do(s, t, e))
  {
    hide NeedsMutex;
    var s' := Do(s, t, e);
    StepMutex(s, t, e);
    StepLocalSelf(s, t, e);
    if Quiesced(s) { StepQuiesced(s, t, e); }
    assert e.Cancel? ==> s.threads[t].Cancelling? && Local(s, s.threads[t]);
    assert e.pc.Releasing? ==> e.Cancel?;
    assert e.Release? ==> s.threads[t].Releasing?;
    assert IsProbe(s, t) ==> (e.pc.ProbeHolds? || e.pc.Probed?) && e.pc.late == s.threads[t].late;
    forall u | u in s'.threads ensures Local(s', s'.threads[u]) {
      if u != t && u in s.threads && !(e.Fork? && u == e.g) { LocalOther(s, s', t, u); }
    }
  }

  lemma InvNext(s: State, s': State)
    requires Inv(s) && Next(s, s')
    ensures Inv(s') && (Quiesced(s) ==> Quiesced(s'))
  {
    if t, e :| Allowed(s, t, e) && s' == Do(s, t, e) {
      InvStep(s, t, e);
      if Quiesced(s) { StepQuiesced(s, t, e); }
    } else {
      forall u | u in s.threads ensures Local(s', s'.threads[u]) {
        assert Local(s, s.threads[u]);
      }
    }
  }

  lemma {:induction false} InvAt(r: seq<State>, i: nat)
    requires Run(r) && i < |r|
    ensures Inv(r[i])
  {
    if i > 0 {
      hide Inv, Next;
      InvAt(r, i - 1);
      InvNext(r[i - 1], r[i]);
    }
  }

  lemma {:induction false} QuiescedFrom(r: seq<State>, i: nat, j: nat)
    requires Run(r) && i <= j < |r| && Quiesced(r[i])
    ensures Quiesced(r[j])
  {
    hide Inv, Quiesced, Next, Init;
    if i < j {
      QuiescedFrom(r, i, j - 1);
      InvAt(r, j - 1);
      InvNext(r[j - 1], r[j]);
    }
  }

  // ---- Theorems -----------------------------------------------------------------------

  predicate RunsOperation(s: State, t: Tid, kind: Kind)
  {
    t in s.threads && (s.threads[t] == Working(kind) || s.threads[t] == Reading(kind))
  }

  /** In every interleaving at most one write operation runs at a time. */
  lemma OneWriterAtATime(r: seq<State>, i: nat, t: Tid, u: Tid)
    requires Run(r) && i < |r|
    requires RunsOperation(r[i], t, Write) && RunsOperation(r[i], u, Write)
    ensures t == u
  {
    InvAt(r, i);
    assert Local(r[i], r[i].threads[t]) && Local(r[i], r[i].threads[u]);
    assert r[i].mutex == {t} && r[i].mutex == {u};
    assert t in r[i].mutex;
  }

  /** When a Drain that was called after Close returns nil, nothing runs then or ever after. */
  lemma DrainIsFinal(r: seq<State>, i: nat, j: nat, t: Tid, u: Tid)
    requires Run(r) && i <= j < |r| && t in r[i].threads && r[i].threads[t] == Drained(true)
    requires u in r[j].threads
    ensures !r[j].threads[u].Working?
  {
    InvAt(r, i);
    assert Local(r[i], r[i].threads[t]);
    QuiescedFrom(r, i, j);
  }

  /**
    Shutdown cancels the background context with no operation in flight, and none starts
    later, unless its own context expired first; the directory lock goes after that.
  */
  lemma ShutdownWaits(r: seq<State>, i: nat, j: nat, u: Tid)
    requires Run(r) && i <= j < |r| && r[i].cancelled && u in r[j].threads
    ensures r[i].expired || !r[j].threads[u].Working?
  {
    InvAt(r, i);
    if !r[i].expired { QuiescedFrom(r, i, j); }
  }

  lemma ReleaseComesLast(r: seq<State>, i: nat)
    requires Run(r) && i < |r| && r[i].released
    ensures r[i].cancelled
  {
    InvAt(r, i);
  }

  /** `r'` is what `r` has gone on to. */
  ghost predicate Continues(r: seq<State>, r': seq<State>)
  {
    |r| <= |r'| && forall i | 0 <= i < |r| :: r'[i] == r[i]
  }

  lemma RunThen(r: seq<State>, s: State, t: Tid, e: Effect) returns (r': seq<State>, s': State)
    requires Run(r) && s == r[|r| - 1] && Allowed(s, t, e)
    ensures Run(r') && Continues(r, r') && s' == r'[|r'| - 1] && s' == Do(s, t, e)
  {
    s' := Do(s, t, e);
    r' := r + [s'];
    assert Next(s, s');
    forall i | 0 < i < |r'| ensures Next(r'[i - 1], r'[i]) {
      if i < |r| { assert r'[i - 1] == r[i - 1] && r'[i] == r[i]; }
    }
  }

  // ---- Progress -----------------------------------------------------------------------

  lemma InvLast(r: seq<State>, s: State)
    requires Run(r) && s == r[|r| - 1]
    ensures Inv(s)
  {
    InvAt(r, |r| - 1);
  }

  lemma Acquire(r: seq<State>, s: State, t: Tid) returns (r': seq<State>, s': State)
    requires Run(r) && s == r[|r| - 1] && s.mutex == {} && t in s.threads
    requires s.threads[t].Queued? || s.threads[t].Probing?
    ensures Run(r') && Continues(r, r') && s' == r'[|r'| - 1]
    ensures
      var pc := if s.threads[t].Queued? then Holding(s.threads[t].kind) else ProbeHolds(s.threads[t].late);
      s' == s.(threads := s.threads[t := pc], mutex := {t})
  {
    hide Run;
    var pc := if s.threads[t].Queued? then Holding(s.threads[t].kind) else ProbeHolds(s.threads[t].late);
    r', s' := RunThen(r, s, t, Lock(pc));
  }

  lemma LetGo(r: seq<State>, s: State, t: Tid) returns (r': seq<State>, s': State)
    requires Run(r) && s == r[|r| - 1] && s.mutex == {t} && t in s.threads
    requires s.threads[t].Leaving? || s.threads[t].ProbeHolds?
    ensures Run(r') && Continues(r, r') && s' == r'[|r'| - 1]
    ensures
      var pc := if s.threads[t].Leaving? then Idle else Probed(s.threads[t].late);
      s' == s.(threads := s.threads[t := pc], mutex := {})
  {
    hide Run;
    var pc := if s.threads[t].Leaving? then Idle else Probed(s.threads[t].late);
    r', s' := RunThen(r, s, t, Unlock(pc));
    assert s.mutex - {t} == {};
  }

  /** Whoever has the mutex for an operation needs nobody else to be done with it. */
  lemma HolderLeaves(r: seq<State>, s: State, m: Tid) returns (r': seq<State>, s': State)
    requires Run(r) && s == r[|r| - 1] && m in s.threads
    requires s.threads[m].Holding? || s.threads[m].Working? || s.threads[m].Leaving?
    ensures Run(r') && Continues(r, r') && s' == r'[|r'| - 1]
    ensures s' == s.(threads := s.threads[m := Leaving])
  {
    hide Run;
    r', s' := r, s;
    if s.threads[m].Holding? {
      r', s' := RunThen(r', s', m, Go(if s.closing then Leaving else Working(s.threads[m].kind)));
    }
    if s'.threads[m].Working? {
      r', s' := RunThen(r', s', m, Go(Leaving));
    }
    assert s'.threads == s.threads[m := Leaving];
  }

  /** Every run can go on to a state in which the mutex is free, moving nobody but its holder. */
  lemma MutexComesFree(r: seq<State>, s: State) returns (r': seq<State>, s': State)
    requires Run(r) && s == r[|r| - 1]
    ensures Run(r') && Continues(r, r') && s' == r'[|r'| - 1]
    ensures s' == s.(threads := s'.threads, mutex := {})
    ensures forall t | t in s.threads && t !in s.mutex :: t in s'.threads && s'.threads[t] == s.threads[t]
    ensures forall t | t in s.threads && s.threads[t].ProbeHolds? ::
      t in s'.threads && s'.threads[t] == Probed(s.threads[t].late)
  {
    hide Run, Inv;
    InvLast(r, s);
    Waiters(s);
    r', s' := r, s;
    if m :| m in s.mutex {
      if !s.threads[m].ProbeHolds? { r', s' := HolderLeaves(r, s, m); }
      r', s' := LetGo(r', s', m);
    }
  }

  /** Who has the mutex, and who has not. */
  lemma Waiters(s: State)
    requires Inv(s)
    ensures forall t | t in s.mutex :: s.mutex == {t} && t in s.threads && NeedsMutex(s.threads[t])
    ensures forall t | t in s.threads && NeedsMutex(s.threads[t]) :: t in s.mutex
    ensures forall t | t in s.threads :: Local(s, s.threads[t])
  {
    hide Local;
    forall t | t in s.threads && NeedsMutex(s.threads[t]) ensures t in s.mutex { }
  }

  /** A caller of Execute never waits in vain: it gets to run its operation, or is turned away once closing. */
  lemma ExecuteProceeds(r: seq<State>, s: State, t: Tid, kind: Kind) returns (r': seq<State>, s': State)
    requires Run(r) && s == r[|r| - 1] && t in s.threads && s.threads[t] in {Idle, Entering(kind), Queued(kind)}
    ensures Run(r') && Continues(r, r') && s' == r'[|r'| - 1] && s'.expired == s.expired && t in s'.threads
    ensures s'.threads[t] == if s.closing then Idle else Working(kind)
  {
    hide Run, Inv, Local;
    r', s' := r, s;
    if s'.threads[t].Idle? { r', s' := RunThen(r', s', t, Go(Entering(kind))); }
    if s'.threads[t].Entering? { r', s' := RunThen(r', s', t, Go(if s.closing then Idle else Queued(kind))); }
    if s'.threads[t].Queued? { r', s' := CallerProceeds(r', s', t); }
  }

  /** A read runs at once, whoever has the mutex. */
  lemma ReadProceeds(r: seq<State>, s: State, t: Tid) returns (r': seq<State>, s': State)
    requires Run(r) && s == r[|r| - 1] && t in s.threads && s.threads[t].Idle?
    ensures Run(r') && Continues(r, r') && s' == r'[|r'| - 1] && s' == s.(threads := s.threads[t := Reading(Read)])
  {
    r', s' := RunThen(r, s, t, Go(Reading(Read)));
  }

  lemma CallerProceeds(r: seq<State>, s: State, t: Tid) returns (r': seq<State>, s': State)
    requires Run(r) && s == r[|r| - 1] && t in s.threads && s.threads[t].Queued?
    ensures Run(r') && Continues(r, r') && s' == r'[|r'| - 1] && s'.expired == s.expired && t in s'.threads
    ensures s'.threads[t] == if s.closing then Idle else Working(s.threads[t].kind)
    ensures s.closing ==> s'.mutex == {}
  {
    hide Run, Inv, Local;
    InvLast(r, s);
    Waiters(s);
    r', s' := MutexComesFree(r, s);
    r', s' := Acquire(r', s', t);
    if s.closing {
      r', s' := HolderLeaves(r', s', t);
      r', s' := LetGo(r', s', t);
    } else {
      r', s' := RunThen(r', s', t, Go(Working(s.threads[t].kind)));
    }
  }

  /** The goroutine of a Drain gets to close its channel, and nobody waiting has moved meanwhile. */
  lemma ProbeProceeds(r: seq<State>, s: State, g: Tid) returns (r': seq<State>, s': State)
    requires Run(r) && s == r[|r| - 1] && IsProbe(s, g)
    ensures Run(r') && Continues(r, r') && s' == r'[|r'| - 1]
    ensures s' == s.(threads := s'.threads, mutex := s'.mutex) && HasProbed(s', g)
    ensures s'.threads[g].late == s.threads[g].late
    ensures forall t | t in s.threads && t != g && !NeedsMutex(s.threads[t]) ::
      t in s'.threads && s'.threads[t] == s.threads[t]
  {
    hide Run, Inv, Local;
    InvLast(r, s);
    Waiters(s);
    r', s' := r, s;
    if !s.threads[g].Probed? {
      r', s' := MutexComesFree(r, s);
      if s.threads[g].Probing? {
        r', s' := Acquire(r', s', g);
        r', s' := LetGo(r', s', g);
      }
    }
  }

  lemma FreshTid(threads: map<Tid, Pc>) returns (g: Tid)
    ensures g !in threads
  {
    g := 0;
    var below: set<Tid> := {};
    while g in threads
      invariant below <= threads.Keys && forall t | t in below :: t < g
      decreases threads.Keys - below
    {
      below := below + {g};
      g := g + 1;
    }
  }

  /** Starting a Drain's goroutine. */
  lemma Forks(r: seq<State>, s: State, t: Tid) returns (r': seq<State>, s': State)
    requires Run(r) && s == r[|r| - 1] && t in s.threads && (s.threads[t].Idle? || s.threads[t].BeginDrain?)
    ensures Run(r') && Continues(r, r') && s' == r'[|r'| - 1] && s' == s.(threads := s'.threads)
    ensures t in s'.threads && (s.threads[t].Idle? ==> s'.threads[t].Waiting?)
    ensures s.threads[t].BeginDrain? ==> s'.threads[t].AwaitDrain?
  {
    hide Run;
    var g := FreshTid(s.threads);
    r', s' := RunThen(r, s, t, Fork(if s.threads[t].Idle? then Waiting(g) else AwaitDrain(g), g));
  }

  /** A Drain can always return nil, without its context expiring. */
  lemma DrainProceeds(r: seq<State>, s: State, t: Tid) returns (r': seq<State>, s': State)
    requires Run(r) && s == r[|r| - 1] && t in s.threads && (s.threads[t].Idle? || s.threads[t].Waiting?)
    ensures Run(r') && Continues(r, r') && s' == r'[|r'| - 1] && s'.expired == s.expired
    ensures t in s'.threads && s'.threads[t].Drained?
  {
    hide Run, Inv, Local;
    r', s' := r, s;
    if s.threads[t].Idle? { r', s' := Forks(r, s, t); }
    var g := s'.threads[t].g;
    WaitsForProbe(r', s', t, g);
    r', s' := ProbeProceeds(r', s', g);
    r', s' := RunThen(r', s', t, Go(Drained(s'.threads[g].late)));
  }

  lemma WaitsForProbe(r: seq<State>, s: State, t: Tid, g: Tid)
    requires Run(r) && s == r[|r| - 1] && t in s.threads && s.threads[t] in {Waiting(g), AwaitDrain(g)}
    ensures IsProbe(s, g) && g != t && !NeedsMutex(s.threads[t])
  {
    hide Run, Inv;
    InvLast(r, s);
    Waiters(s);
    assert Local(s, s.threads[t]);
  }

  /** A Shutdown can always finish in order, without its context expiring, wherever it stands. */
  lemma ShutdownProceeds(r: seq<State>, s: State, t: Tid) returns (r': seq<State>, s': State)
    requires Run(r) && s == r[|r| - 1] && t in s.threads
    requires s.threads[t].Idle? || s.threads[t].StoppingHttp? || s.threads[t].BeginDrain? || s.threads[t].AwaitDrain?
    ensures Run(r') && Continues(r, r') && s' == r'[|r'| - 1] && s'.expired == s.expired
    ensures t in s'.threads && s'.threads[t] == Idle && s'.cancelled && s'.released
  {
    hide Run, Inv, Local;
    r', s' := r, s;
    if s'.threads[t].Idle? { r', s' := RunThen(r', s', t, Close(StoppingHttp)); }
    if s'.threads[t].StoppingHttp? { r', s' := RunThen(r', s', t, Go(BeginDrain)); }
    if s'.threads[t].BeginDrain? { r', s' := Forks(r', s', t); }
    r', s' := DrainedShutdown(r', s', t);
  }

  lemma DrainedShutdown(r: seq<State>, s: State, t: Tid) returns (r': seq<State>, s': State)
    requires Run(r) && s == r[|r| - 1] && t in s.threads && s.threads[t].AwaitDrain?
    ensures Run(r') && Continues(r, r') && s' == r'[|r'| - 1] && s'.expired == s.expired
    ensures t in s'.threads && s'.threads[t] == Idle && s'.cancelled && s'.released
  {
    hide Run, Inv, Local;
    WaitsForProbe(r, s, t, s.threads[t].g);
    r', s' := ProbeProceeds(r, s, s.threads[t].g);
    r', s' := RunThen(r', s', t, Go(Cancelling));
    r', s' := RunThen(r', s', t, Cancel(Releasing));
    r', s' := RunThen(r', s', t, Release(Idle));
  }

  /** A Drain has seen the mutex free, and has not returned yet. */
  lemma EarlyProbe() returns (r: seq<State>, s: State)
    ensures Run(r) && s == r[|r| - 1]
    ensures s == State(map[0 := Waiting(3), 1 := Idle, 2 := Idle, 3 := Probed(false)], {}, false, false, false, false)
  {
    s := State(map[0 := Idle, 1 := Idle, 2 := Idle], {}, false, false, false, false);
    r := [s];
    r, s := RunThen(r, s, 0, Fork(Waiting(3), 3));
    r, s := RunThen(r, s, 3, Lock(ProbeHolds(false)));
    r, s := RunThen(r, s, 3, Unlock(Probed(false)));
  }

  /** A Drain called before Close promises nothing: an operation can run when it returns nil. */
  lemma EarlyDrainPromisesNothing() returns (r: seq<State>, s: State)
    ensures Run(r) && s == r[|r| - 1] && 0 in s.threads && 1 in s.threads
    ensures s.closing && s.threads[0] == Drained(false) && s.threads[1] == Working(Write)
  {
    r, s := EarlyProbe();
    hide Run;
    r, s := RunThen(r, s, 1, Go(Entering(Write)));
    r, s := RunThen(r, s, 1, Go(Queued(Write)));
    r, s := RunThen(r, s, 1, Lock(Holding(Write)));
    r, s := RunThen(r, s, 1, Go(Working(Write)));
    r, s := RunThen(r, s, 2, Close(Idle));
    r, s := RunThen(r, s, 0, Go(Drained(false)));
  }
}
