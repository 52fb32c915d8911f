/**
  The cron task queue (internal/daemon/cron_tasks.go).  Each event below is one critical
  section of the tracker's mutex; between events the workers run their tasks.
*/
module CronTracker {

  /** `workers` are the tasks being executed right now, one per goroutine. */
  datatype Queue = Queue(
    current: string,
    pending: seq<string>,
    workers: seq<string>,
    accepted: seq<string>,            // every task ever answered with true, in order
    finished: seq<string>)            // every task whose execution has ended, in order

  const Empty := Queue("", [], [], [], [])

  datatype Event = Ask(name: string) | Finish(worker: nat)

  predicate Accepts(q: Queue, name: string)
  {
    q.current != name && name !in q.pending
  }

  function Asked(q: Queue, name: string): Queue
  {
    if !Accepts(q, name) then q
    else
      var q' := q.(accepted := q.accepted + [name]);
      if q.current == "" then q'.(current := name, workers := q.workers + [name])
      else q'.(pending := q.pending + [name])
  }

  function Ended(q: Queue, worker: nat): Queue
    requires worker < |q.workers|
  {
    var q' := q.(finished := q.finished + [q.workers[worker]]);
    if q.pending == [] then q'.(current := "", workers := q.workers[..worker] + q.workers[worker + 1..])
    else q'.(current := q.pending[0], pending := q.pending[1..], workers := q.workers[worker := q.pending[0]])
  }

  function Play(q: Queue, events: seq<Event>): Queue
    decreases |events|
  {
    if events == [] then q
    else
      var next := match events[0]
        case Ask(name) => Asked(q, name)
        case Finish(worker) => if worker < |q.workers| then Ended(q, worker) else q;
      Play(next, events[1..])
  }

  /** The tracker itself: the same state as fields, changed in place. */
  class Tracker {
    var currentTask: string
    var pendingTasks: seq<string>
    var workers: seq<string>
    ghost var accepted: seq<string>
    ghost var finished: seq<string>

    ghost function Value(): Queue
      reads this
    {
      Queue(currentTask, pendingTasks, workers, accepted, finished)
    }

    constructor ()
      ensures Value() == Empty
    {
      currentTask, pendingTasks, workers, accepted, finished := "", [], [], [], [];
    }

    /** True: started or queued.  False: already running or already queued. */
    method RunTask(name: string) returns (ok: bool)
      modifies this
      ensures ok == Accepts(old(Value()), name)
      ensures Value() == Asked(old(Value()), name)
    {
      if currentTask == name { return false; }
      if name in pendingTasks { return false; }
      accepted := accepted + [name];
      if currentTask == "" {
        currentTask := name;
        workers := workers + [name];
        return true;
      }
      pendingTasks := pendingTasks + [name];
      return true;
    }

    /** The tail of executeTask: the worker takes the next task, or ends. */
    method FinishTask(worker: nat)
      requires worker < |workers|
      modifies this
      ensures Value() == Ended(old(Value()), worker)
    {
      finished := finished + [workers[worker]];
      currentTask := "";
      if |pendingTasks| > 0 {
        var next := pendingTasks[0];
        pendingTasks := pendingTasks[1..];
        currentTask := next;
        workers := workers[worker := next];
      } else {
        workers := workers[..worker] + workers[worker + 1..];
      }
    }
  }

  // ---- The plain queue it refines -----------------------------------------------------

  /** Head is being served; a name already in the queue is turned away. */
  type Fifo = seq<string>

  function Join(f: Fifo, name: string): Fifo
  {
    if name in f then f else f + [name]
  }

  function Serve(f: Fifo): Fifo
  {
    if f == [] then [] else f[1..]
  }

  function PlayFifo(f: Fifo, events: seq<Event>): Fifo
    decreases |events|
  {
    if events == [] then f
    else
      var next := match events[0]
        case Ask(name) => Join(f, name)
        case Finish(worker) => if worker == 0 then Serve(f) else f;
      PlayFifo(next, events[1..])
  }

  ghost predicate NoRepeats(f: Fifo)
  {
    forall i, j | 0 <= i < j < |f| :: f[i] != f[j]
  }

  function Line(q: Queue): Fifo
  {
    q.workers + q.pending
  }

  /** One worker, which `current` names; idle means nothing queued; nothing lost or doubled. */
  ghost predicate Good(q: Queue)
  {
    && q.workers == (if q.current == "" then [] else [q.current])
    && (q.current == "" ==> q.pending == [])
    && "" !in q.pending
    && NoRepeats(Line(q))
    && q.accepted == q.finished + Line(q)
  }

  lemma AskRefines(q: Queue, name: string)
    requires Good(q) && name != ""
    ensures Good(Asked(q, name))
    ensures Line(Asked(q, name)) == Join(Line(q), name)
    ensures Accepts(q, name) <==> name !in Line(q)
    ensures Asked(q, name).accepted == if Accepts(q, name) then q.accepted + [name] else q.accepted
  {
    if Accepts(q, name) {
      assert Line(Asked(q, name)) == Line(q) + [name];
      assert Asked(q, name).accepted == q.finished + (Line(q) + [name]);
    }
  }

  lemma FinishRefines(q: Queue)
    requires Good(q) && q.workers != []
    ensures Good(Ended(q, 0))
    ensures Line(Ended(q, 0)) == Serve(Line(q))
    ensures Ended(q, 0).finished == q.finished + [Line(q)[0]]
  {
    var q' := Ended(q, 0);
    assert Line(q') == Line(q)[1..];
    assert Line(q) == [Line(q)[0]] + Line(q');
    assert q'.accepted == q'.finished + Line(q');
  }

  /**
    Over every history without an empty name: one worker at most, no name running and
    queued or queued twice, idle only with an empty queue, and the accepted tasks are
    executed exactly once each and in the order they were accepted.
  */
  lemma {:induction false} EveryTaskOnceInOrder(q: Queue, events: seq<Event>)
    requires Good(q) && Ask("") !in events
    ensures Good(Play(q, events)) && Line(Play(q, events)) == PlayFifo(Line(q), events)
    decreases |events|
  {
    if events != [] {
      match events[0] {
        case Ask(name) =>
          AskRefines(q, name);
          EveryTaskOnceInOrder(Asked(q, name), events[1..]);
        case Finish(worker) =>
          if worker < |q.workers| {
            FinishRefines(q);
            EveryTaskOnceInOrder(Ended(q, worker), events[1..]);
          } else {
            EveryTaskOnceInOrder(q, events[1..]);
          }
      }
    }
  }

  // ---- The empty name -----------------------------------------------------------------

  function Finishes(k: nat): seq<Event>
  {
    seq(k, i => Finish(0))
  }

  /** Serving the queue up to an empty name at its end leaves a worker nobody knows of. */
  lemma {:induction false} EmptyNameHides(q: Queue)
    requires |q.workers| == 1 && q.pending != [] && q.pending[|q.pending| - 1] == ""
    ensures
      var q' := Play(q, Finishes(|q.pending|) + [Ask("b")]);
      |q'.workers| == 2
    decreases |q.pending|
  {
    var events := Finishes(|q.pending|) + [Ask("b")];
    var next := Ended(q, 0);
    assert events[0] == Finish(0) && events[1..] == Finishes(|q.pending| - 1) + [Ask("b")];
    assert Play(q, events) == Play(next, events[1..]);
    if |q.pending| > 1 {
      EmptyNameHides(next);
    } else {
      assert events[1..] == [Ask("b")];
      assert Play(next, [Ask("b")]) == Play(Asked(next, "b"), []);
    }
  }

  /**
    Accepting the empty name is exactly what breaks the single worker; an idle tracker turns
    it away, because it looks like the running task.
  */
  lemma SingleWorkerIff(q: Queue, name: string)
    requires Good(q)
    ensures Accepts(q, "") <==> q.current != ""
    ensures (forall events :: Ask("") !in events ==> |Play(Asked(q, name), events).workers| <= 1)
      <==> (name != "" || q.current == "")
  {
    if name != "" || q.current == "" {
      forall events | Ask("") !in events ensures |Play(Asked(q, name), events).workers| <= 1 {
        if name != "" { AskRefines(q, name); }
        EveryTaskOnceInOrder(Asked(q, name), events);
      }
    } else {
      var q' := Asked(q, name);
      EmptyNameHides(q');
      assert Ask("") !in Finishes(|q'.pending|) + [Ask("b")];
    }
  }
}
