/**
  What an operator hears about scheduled runs (the reporter and cronLogFailed in
  internal/operations/cron_notify.go, Execute and phase in internal/operations/cron_task.go,
  MarkInterruptedRuns in internal/store/cron/cron.go).
*/
module RunReports {
  import opened Basics

  datatype Phase = Capture | Upload | LocalRetention | OffsiteRetention

  datatype Verdict = Ok | Fail | Interrupted

  /** One row of the run log: a status per phase, if that was ever written. */
  datatype LogRow = LogRow(statuses: map<Phase, Verdict>, completed: bool)

  datatype Note = NothingCaptured | PartlyCaptured | Captured

  datatype Message = Failed(failures: seq<Phase>, note: Note) | Recovered

  const AllPhases := [Capture, Upload, LocalRetention, OffsiteRetention]

  // ---- The verdict on a recorded run --------------------------------------------------

  ghost predicate RowFailed(row: LogRow)
  {
    (exists p :: p in row.statuses && row.statuses[p] == Fail) || row.statuses == map[]
  }

  method CronLogFailed(row: Option<LogRow>) returns (failed: bool)
    ensures failed <==> row.Some? && RowFailed(row.value)
  {
    if row.None? { return false; }
    var statuses, recorded := row.value.statuses, false;
    for i := 0 to 4
      invariant recorded <==> exists j :: 0 <= j < i && AllPhases[j] in statuses
      invariant forall j | 0 <= j < i && AllPhases[j] in statuses :: statuses[AllPhases[j]] != Fail
    {
      if AllPhases[i] in statuses {
        recorded := true;
        if statuses[AllPhases[i]] == Fail { return true; }
      }
    }
    assert recorded <==> statuses != map[] by {
      if p :| p in statuses { var j := IndexOf(p); }
    }
    forall p | p in statuses ensures statuses[p] != Fail { var j := IndexOf(p); }
    return !recorded;
  }

  lemma IndexOf(p: Phase) returns (j: nat)
    ensures j < 4 && AllPhases[j] == p
  {
    match p
    case Capture => j := 0;
    case Upload => j := 1;
    case LocalRetention => j := 2;
    case OffsiteRetention => j := 3;
  }

  // ---- The reporter -------------------------------------------------------------------

  class Reporter {
    var previousRunFailed: bool
    var archiveProduced: bool
    var failures: seq<Phase>

    constructor (previousRunFailed: bool)
      ensures this.previousRunFailed == previousRunFailed && !archiveProduced && failures == []
    {
      this.previousRunFailed, archiveProduced, failures := previousRunFailed, false, [];
    }

    method Record(phase: Phase, ok: bool)
      modifies this`failures
      ensures failures == old(failures) + if ok then [] else [phase]
    {
      if !ok { failures := failures + [phase]; }
    }

    method NoteArchive()
      modifies this`archiveProduced
      ensures archiveProduced
    {
      archiveProduced := true;
    }

    /** At most one message for the whole run. */
    method Finish() returns (m: Option<Message>)
      ensures Tells(m, failures, archiveProduced, previousRunFailed)
    {
      if failures != [] {
        var note := Captured;
        if Capture in failures {
          note := if archiveProduced then PartlyCaptured else NothingCaptured;
        }
        return Some(Failed(failures, note));
      }
      if previousRunFailed { return Some(Recovered); }
      return None;
    }
  }

  /**
    "Failed" exactly if a phase failed, naming all of them and what became of the capture;
    "Recovered" exactly if only the previous run did.
  */
  predicate Tells(m: Option<Message>, failures: seq<Phase>, archived: bool, previousRunFailed: bool)
  {
    && (m.Some? && m.value.Failed? <==> failures != [])
    && (m == Some(Recovered) <==> failures == [] && previousRunFailed)
    && (m.Some? && m.value.Failed? ==>
          && m.value.failures == failures
          && (m.value.note == NothingCaptured <==> Capture in failures && !archived)
          && (m.value.note == PartlyCaptured <==> Capture in failures && archived))
  }

  // ---- A run --------------------------------------------------------------------------

  /** How the phases of a run turn out; an upload is attempted only of an archive. */
  datatype Outcome = Outcome(capture: bool, archived: bool, upload: bool, localRetention: bool, offsiteRetention: bool)

  function Phases(o: Outcome): seq<Phase>
  {
    [Capture] + (if o.archived then [Upload] else []) + [LocalRetention, OffsiteRetention]
  }

  function Works(o: Outcome, p: Phase): bool
  {
    match p
    case Capture => o.capture
    case Upload => o.upload
    case LocalRetention => o.localRetention
    case OffsiteRetention => o.offsiteRetention
  }

  /** The phases that failed, in the order they ran. */
  function Failures(o: Outcome, phases: seq<Phase>): seq<Phase>
  {
    if phases == [] then []
    else Failures(o, phases[..|phases| - 1]) + if Works(o, phases[|phases| - 1]) then [] else [phases[|phases| - 1]]
  }

  /** The row a run leaves if the status writes of the phases in `landed` succeed. */
  function RowOf(o: Outcome, landed: set<Phase>): map<Phase, Verdict>
  {
    map p | p in landed :: if Works(o, p) then Ok else Fail
  }

  class RunLog {
    /** The rows of one schedule, oldest first. */
    var rows: seq<LogRow>

    /** How many reads and writes of the log have failed. */
    ghost var faults: nat
  }

  /** One phase: its status goes to the row, if the write succeeds, and to the reporter always. */
  method RecordPhase(log: RunLog, reporter: Reporter, phase: Phase, ok: bool) returns (landed: bool)
    requires log.rows != []
    modifies log, reporter`failures
    ensures reporter.failures == old(reporter.failures) + if ok then [] else [phase]
    ensures log.faults == old(log.faults) + if landed then 0 else 1
    ensures log.rows == old(log.rows[..|log.rows| - 1]) + [old(log.rows[|log.rows| - 1]).(statuses :=
      if landed then old(log.rows[|log.rows| - 1]).statuses[phase := if ok then Ok else Fail]
      else old(log.rows[|log.rows| - 1]).statuses)]
  {
    landed := *;
    var row := log.rows[|log.rows| - 1];
    if landed {
      log.rows := log.rows[..|log.rows| - 1] + [row.(statuses := row.statuses[phase := if ok then Ok else Fail])];
    } else {
      log.faults := log.faults + 1;
    }
    reporter.Record(phase, ok);
  }

  /** Every phase in order, each on the newest row. */
  method RunPhases(log: RunLog, reporter: Reporter, o: Outcome) returns (ghost landed: set<Phase>)
    requires log.rows != [] && log.rows[|log.rows| - 1] == LogRow(map[], false) && reporter.failures == []
    modifies log, reporter`failures
    ensures landed <= set p | p in Phases(o)
    ensures log.rows == old(log.rows[..|log.rows| - 1]) + [LogRow(RowOf(o, landed), false)]
    ensures reporter.failures == Failures(o, Phases(o))
    ensures log.faults >= old(log.faults) && (log.faults == old(log.faults) ==> landed == set p | p in Phases(o))
  {
    landed := {};
    var phases := Phases(o);
    assert RowOf(o, {}) == map[];
    ghost var before := log.rows[..|log.rows| - 1];
    hide Phases;
    for i := 0 to |phases|
      invariant landed <= (set p | p in phases)
      invariant log.rows == before + [LogRow(RowOf(o, landed), false)]
      invariant reporter.failures == Failures(o, phases[..i])
      invariant log.faults >= old(log.faults)
      invariant (log.faults == old(log.faults) ==> forall j | 0 <= j < i :: phases[j] in landed)
    {
      var written := RecordPhase(log, reporter, phases[i], Works(o, phases[i]));
      assert phases[..i + 1][..i] == phases[..i];
      if written { landed := landed + {phases[i]}; }
      assert log.rows[|before|].statuses == RowOf(o, landed);
    }
    assert phases[..|phases|] == phases;
  }

  ghost predicate LastFailed(rows: seq<LogRow>)
  {
    rows != [] && RowFailed(rows[|rows| - 1])
  }

  method ScheduledRun(log: RunLog, o: Outcome)
      returns (m: Option<Message>, started: bool, ghost sampled: bool, ghost landed: set<Phase>)
    modifies log
    ensures log.faults >= old(log.faults)
    ensures log.faults == old(log.faults) ==> started && sampled && landed == set p | p in Phases(o)
    ensures !started ==> m.None? && log.rows == old(log.rows)
    ensures log.faults == old(log.faults) ==> log.rows != [] && log.rows[|log.rows| - 1].completed
    ensures started ==>
      && landed <= (set p | p in Phases(o))
      && log.rows != [] && log.rows == old(log.rows) + [LogRow(RowOf(o, landed), log.rows[|log.rows| - 1].completed)]
      && Tells(m, Failures(o, Phases(o)), o.archived, sampled && LastFailed(old(log.rows)))
  {
    hide RowFailed, RowOf, Failures, Phases, Tells;
    landed, m, started := {}, None, false;
    // The previous run is looked up before this run's row exists; a failed lookup counts as none.
    var readable, creatable := *, *;
    sampled := readable;
    if !readable || !creatable { log.faults := log.faults + 1; }
    var previous := false;
    if readable && log.rows != [] {
      previous := CronLogFailed(Some(log.rows[|log.rows| - 1]));
    }
    var reporter := new Reporter(previous);
    if !creatable { return; }
    started := true;
    landed := RunRow(log, reporter, o);
    if o.archived { reporter.NoteArchive(); }
    m := reporter.Finish();
  }

  /** The run's own row: created, filled phase by phase, and completed if that can be written. */
  method RunRow(log: RunLog, reporter: Reporter, o: Outcome) returns (ghost landed: set<Phase>)
    requires reporter.failures == []
    modifies log, reporter`failures
    ensures landed <= set p | p in Phases(o)
    ensures log.rows != [] && log.rows == old(log.rows) + [LogRow(RowOf(o, landed), log.rows[|log.rows| - 1].completed)]
    ensures reporter.failures == Failures(o, Phases(o))
    ensures log.faults >= old(log.faults) && (log.faults == old(log.faults) ==> landed == set p | p in Phases(o))
    ensures log.faults == old(log.faults) ==> log.rows[|log.rows| - 1].completed
  {
    hide RowOf, Failures, Phases;
    ghost var rows0 := log.rows;
    log.rows := log.rows + [LogRow(map[], false)];
    assert log.rows[..|log.rows| - 1] == rows0;
    landed := RunPhases(log, reporter, o);
    var row, completes := log.rows[|log.rows| - 1], *;
    if completes {
      log.rows := log.rows[..|log.rows| - 1] + [row.(completed := true)];
    } else {
      log.faults := log.faults + 1;
    }
  }

  // ---- Over a history -----------------------------------------------------------------

  /** Some phase that ran failed. */
  predicate AnyFailed(o: Outcome)
  {
    !o.capture || (o.archived && !o.upload) || !o.localRetention || !o.offsiteRetention
  }

  /** What a message about this run names: each phase whose own outcome was a failure, in order. */
  function Named(o: Outcome): seq<Phase>
  {
    (if o.capture then [] else [Capture]) + (if o.archived && !o.upload then [Upload] else [])
    + (if o.localRetention then [] else [LocalRetention]) + (if o.offsiteRetention then [] else [OffsiteRetention])
  }

  lemma FailuresNext(o: Outcome, phases: seq<Phase>, p: Phase)
    ensures Failures(o, phases + [p]) == Failures(o, phases) + if Works(o, p) then [] else [p]
  {
    assert (phases + [p])[..|phases|] == phases;
  }

  lemma NothingFailed(o: Outcome)
    ensures Failures(o, []) == []
  {
  }

  lemma FailuresMean(o: Outcome)
    ensures Failures(o, Phases(o)) == Named(o) && (Named(o) != [] <==> AnyFailed(o))
  {
    NothingFailed(o);
    hide Failures;
    var first: seq<Phase> := [Capture];
    assert [] + [Capture] == first;
    FailuresNext(o, [], Capture);
    var begun := if o.archived then first + [Upload] else first;
    FailuresNext(o, first, Upload);
    FailuresNext(o, begun, LocalRetention);
    FailuresNext(o, begun + [LocalRetention], OffsiteRetention);
    assert Phases(o) == begun + [LocalRetention] + [OffsiteRetention];
  }

  /** A status that was written is that of its own phase. */
  lemma RowTells(o: Outcome, landed: set<Phase>)
    ensures
      var row := RowOf(o, landed);
      && row.Keys == landed
      && (Capture in landed ==> row[Capture] == if o.capture then Ok else Fail)
      && (Upload in landed ==> row[Upload] == if o.upload then Ok else Fail)
      && (LocalRetention in landed ==> row[LocalRetention] == if o.localRetention then Ok else Fail)
      && (OffsiteRetention in landed ==> row[OffsiteRetention] == if o.offsiteRetention then Ok else Fail)
  {
  }

  /**
    The verdict recomputed from the row agrees with the one the reporter had, exactly when
    a failing phase's status was written, or nothing was although something failed, or
    nothing failed and something was written.
  */
  lemma VerdictsAgreeIff(o: Outcome, landed: set<Phase>)
    requires landed <= set p | p in Phases(o)
    ensures (RowFailed(LogRow(RowOf(o, landed), true)) <==> AnyFailed(o)) <==>
      if AnyFailed(o) then landed == {} || exists p :: p in landed && !Works(o, p) else landed != {}
  {
    var row := RowOf(o, landed);
    assert row.Keys == landed;
    if p :| p in landed && !Works(o, p) {
      assert row[p] == Fail;
    }
    assert forall p | p in landed :: p in Phases(o);
  }

  /** In particular they agree when every status write lands. */
  lemma VerdictsAgree(o: Outcome)
    ensures RowFailed(LogRow(RowOf(o, set p | p in Phases(o)), true)) <==> AnyFailed(o)
  {
    var landed := set p | p in Phases(o);
    VerdictsAgreeIff(o, landed);
    assert Capture in landed;
    assert LocalRetention in landed;
    assert OffsiteRetention in landed;
    assert (o.archived ==> Upload in landed);
  }

  function NoteFor(o: Outcome): Note
  {
    if o.capture then Captured else if o.archived then PartlyCaptured else NothingCaptured
  }

  /** The right thing to send about the i-th run of a history. */
  predicate Fits(runs: seq<Outcome>, i: nat, m: Option<Message>)
    requires i < |runs|
  {
    && (m.Some? && m.value.Failed? <==> AnyFailed(runs[i]))
    && (AnyFailed(runs[i]) ==> m.value.failures == Named(runs[i]) && m.value.note == NoteFor(runs[i]))
    && (m == Some(Recovered) <==> i > 0 && AnyFailed(runs[i - 1]) && !AnyFailed(runs[i]))
  }

  /**
    Any history of runs, from an empty log: one message at most per run, "Failed" exactly
    when a phase failed, "Recovered" exactly when the run before failed and this one did not.
    The log is assumed to take every read and write; `VerdictsAgreeIff` says what a lost
    status write does.
  */
  method History(log: RunLog, runs: seq<Outcome>) returns (sent: seq<Option<Message>>)
    requires log.rows == []
    modifies log
    ensures |sent| == |runs|
    ensures log.faults == old(log.faults) ==> forall i | 0 <= i < |runs| :: Fits(runs, i, sent[i])
  {
    hide Fits, Tells, Failures, Phases, RowFailed, AnyFailed, RowOf;
    sent := [];
    for i := 0 to |runs|
      invariant |sent| == i && log.faults >= old(log.faults) && (log.faults == old(log.faults) ==> |log.rows| == i)
      invariant log.faults == old(log.faults) ==> forall j | 0 <= j < i :: Fits(runs, j, sent[j])
      invariant log.faults == old(log.faults) ==> (i > 0 ==> (RowFailed(log.rows[i - 1]) <==> AnyFailed(runs[i - 1])))
    {
      var m, started;
      ghost var sampled, landed;
      ghost var before := log.rows;
      m, started, sampled, landed := ScheduledRun(log, runs[i]);
      if log.faults == old(log.faults) {
        FitsHere(runs, i, m, sampled && LastFailed(before));
        VerdictsAgree(runs[i]);
        SameVerdict(log.rows[i]);
      }
      sent := sent + [m];
    }
  }

  lemma SameVerdict(row: LogRow)
    ensures RowFailed(row) <==> RowFailed(LogRow(row.statuses, true))
  {
  }

  lemma FitsHere(runs: seq<Outcome>, i: nat, m: Option<Message>, previous: bool)
    requires i < |runs| && (previous <==> i > 0 && AnyFailed(runs[i - 1]))
    requires Tells(m, Failures(runs[i], Phases(runs[i])), runs[i].archived, previous)
    ensures Fits(runs, i, m)
  {
    FailuresMean(runs[i]);
    hide Failures, Phases;
  }

  // ---- Interrupted runs ---------------------------------------------------------------

  /** What startup does to a snapshot row that was never completed. */
  function Marked(row: LogRow): LogRow
  {
    if row.completed then row
    else LogRow(if Capture in row.statuses then row.statuses else row.statuses[Capture := Interrupted], true)
  }

  /**
    A run that was cut short counts as failed before startup has marked it if it recorded
    nothing; after that it counts only if a phase had recorded a failure.
  */
  lemma InterruptedVerdict(row: LogRow)
    requires !row.completed
    ensures RowFailed(Marked(row)) <==> exists p :: p in row.statuses && row.statuses[p] == Fail
    ensures RowFailed(row) && !RowFailed(Marked(row)) <==> row.statuses == map[]
    ensures Marked(row).completed && Marked(Marked(row)) == Marked(row)
    ensures forall p | p in row.statuses :: p in Marked(row).statuses && Marked(row).statuses[p] == row.statuses[p]
    ensures Marked(row).statuses.Keys == row.statuses.Keys + {Capture}
  {
    var marked := Marked(row).statuses;
    assert Capture in marked;
    if p :| p in row.statuses && row.statuses[p] == Fail {
      assert marked[p] == Fail;
    }
    if p :| p in marked && marked[p] == Fail {
      assert row.statuses[p] == Fail;
    }
  }
}
