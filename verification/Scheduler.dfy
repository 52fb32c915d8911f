/**
  The snapshot schedule (checkSnapshotPlan and its helpers in
  internal/daemon/cron_scheduler.go, RunsAtHour in internal/store/snapshot/types.go).

  A tick looks at the plan and the run log, and later submits to the queue; the queue,
  the executor and the clock move in between.  Time is in seconds since midnight UTC of
  some day.
*/
module Scheduler {

  datatype Plan = Plan(utcHour: int, intervalHours: int, paused: bool)

  const Hour := 3600

  // ---- Which hours --------------------------------------------------------------------

  function Mod(a: int, b: int): (r: int)
    requires b > 0
    ensures 0 <= r < b
  {
    a % b
  }

  /** Go's remainder has the sign of the dividend. */
  function TruncatedMod(a: int, b: int): int
    requires b > 0
  {
    if a >= 0 then Mod(a, b) else -Mod(-a, b)
  }

  /** A plan without a usable interval is a daily one. */
  function Interval(plan: Plan): (i: int)
    ensures i > 0
  {
    if plan.intervalHours <= 0 then 24 else plan.intervalHours
  }

  predicate RunsAtHour(plan: Plan, hour: int)
  {
    var i := Interval(plan);
    TruncatedMod(TruncatedMod(hour - plan.utcHour, i) + i, i) == 0
  }

  lemma MulAtLeast(a: int, m: int)
    requires a >= 1 && m > 0
    ensures a * m >= m
  {
  }

  lemma ModUnique(x: int, m: int, q: int, r: int)
    requires m > 0 && x == q * m + r && 0 <= r < m
    ensures Mod(x, m) == r
  {
    var q', r' := x / m, x % m;
    assert (q - q') * m == q * m - q' * m == r' - r;
    if q > q' { MulAtLeast(q - q', m); }
    if q < q' { MulAtLeast(q' - q, m); }
  }

  lemma ModAdd(x: int, m: int)
    requires m > 0
    ensures Mod(x + m, m) == Mod(x, m)
  {
    var q, r := x / m, x % m;
    assert x + m == (q + 1) * m + r;
    ModUnique(x + m, m, q + 1, r);
  }

  lemma ModSmall(x: int, m: int)
    requires 0 <= x < m
    ensures Mod(x, m) == x
  {
    ModUnique(x, m, 0, x);
  }

  lemma {:induction false} ModNegative(x: int, m: int)
    requires m > 0 && x >= 0
    ensures Mod(-x, m) == 0 <==> Mod(x, m) == 0
    decreases x
  {
    hide Mod;
    if x >= m {
      ModNegative(x - m, m);
      ModAdd(x - m, m);
      ModAdd(-x, m);
    } else {
      ModSmall(x, m);
      ModAdd(-x, m);
      if x > 0 { ModSmall(m - x, m); }
    }
  }

  function Times(k: int, m: int): int
  {
    k * m
  }

  /** A whole number of `m`s. */
  ghost predicate Whole(d: int, m: int)
  {
    exists k :: d == Times(k, m)
  }

  lemma WholeIff(d: int, m: int)
    requires m > 0
    ensures Whole(d, m) <==> Mod(d, m) == 0
  {
    if Whole(d, m) {
      var k :| d == Times(k, m);
      ModUnique(d, m, k, 0);
    }
    if Mod(d, m) == 0 {
      assert d == Times(d / m, m);
    }
  }

  /**
    A plan runs in the hours a whole number of its intervals away from its anchor, before or
    after; an interval that is not positive counts as a day.
  */
  lemma RunsAtHourMeans(plan: Plan, hour: int)
    ensures plan.intervalHours > 0 ==> (RunsAtHour(plan, hour) <==> Whole(hour - plan.utcHour, plan.intervalHours))
    ensures plan.intervalHours <= 0 ==> (RunsAtHour(plan, hour) <==> Whole(hour - plan.utcHour, 24))
  {
    RunsAtHourMod(plan, hour);
    WholeIff(hour - plan.utcHour, Interval(plan));
  }

  lemma RunsAtHourMod(plan: Plan, hour: int)
    ensures RunsAtHour(plan, hour) <==> Mod(hour - plan.utcHour, Interval(plan)) == 0
  {
    hide Mod;
    var i, d := Interval(plan), hour - plan.utcHour;
    if d >= 0 {
      ModAdd(Mod(d, i), i);
      ModSmall(Mod(d, i), i);
    } else {
      ModNegative(-d, i);
      var r := Mod(-d, i);
      ModAdd(0, i);
      ModSmall(0, i);
      if r > 0 { ModSmall(i - r, i); }
    }
  }

  /** The schedule fires in the `t`-th hour since some midnight. */
  predicate Fires(plan: Plan, t: int)
  {
    RunsAtHour(plan, t % 24)
  }

  ghost predicate SilentBetween(plan: Plan, t: int, u: int)
  {
    forall h | t < h < u :: !Fires(plan, h)
  }

  /** From every firing hour, the next one is exactly `m` hours away. */
  ghost predicate Regular(plan: Plan, m: int)
  {
    forall t | Fires(plan, t) :: Fires(plan, t + m) && SilentBetween(plan, t, t + m)
  }

  lemma {:induction false} ModMultiple(x: int, k: nat, m: int)
    requires m > 0
    ensures Mod(x + k * m, m) == Mod(x, m)
  {
    hide Mod;
    if k > 0 {
      ModMultiple(x, k - 1, m);
      ModAdd(x + (k - 1) * m, m);
      assert x + k * m == x + (k - 1) * m + m;
    }
  }

  lemma Divisor(m: int) returns (c: nat)
    requires m > 0 && Mod(24, m) == 0
    ensures c * m == 24
  {
    c := 24 / m;
  }

  /** A day later the distance to the anchor is the same, up to whole intervals. */
  lemma {:induction false} ModDays(x: int, days: int, m: int)
    requires m > 0 && Mod(24, m) == 0
    ensures Mod(x + 24 * days, m) == Mod(x, m)
    decreases if days < 0 then -days else days
  {
    var c := Divisor(m);
    hide Mod;
    if days > 0 {
      ModDays(x, days - 1, m);
      ModMultiple(x + 24 * (days - 1), c, m);
    } else if days < 0 {
      ModDays(x, days + 1, m);
      ModMultiple(x + 24 * days, c, m);
    }
  }

  /** With an interval that divides 24 the anchor decides every hour of every day. */
  lemma FiresMeans(plan: Plan, t: int)
    requires Mod(24, Interval(plan)) == 0
    ensures Fires(plan, t) <==> Mod(t - plan.utcHour, Interval(plan)) == 0
  {
    hide Mod;
    RunsAtHourMod(plan, t % 24);
    ModDays(t % 24 - plan.utcHour, t / 24, Interval(plan));
  }

  /** A regular schedule fires only whole intervals after a firing hour. */
  lemma {:induction false} RegularSteps(plan: Plan, i: int, t0: int, t: int)
    requires i > 0 && Regular(plan, i) && Fires(plan, t0) && Fires(plan, t) && t0 <= t
    ensures Mod(t - t0, i) == 0
    decreases t - t0
  {
    hide Mod, Fires;
    if t - t0 >= i {
      RegularSteps(plan, i, t0 + i, t);
      ModAdd(t - t0 - i, i);
    } else {
      ModSmall(t - t0, i);
    }
  }

  /** The slots keep their distance across every midnight exactly when the interval divides 24. */
  lemma RegularIffDivides(plan: Plan)
    requires 0 <= plan.utcHour < 24
    ensures plan.intervalHours > 0 ==> (Regular(plan, plan.intervalHours) <==> Whole(24, plan.intervalHours))
    ensures plan.intervalHours <= 0 ==> Regular(plan, 24)
  {
    hide Mod, RunsAtHour, Whole;
    var i := Interval(plan);
    WholeIff(24, i);
    if Regular(plan, i) {
      RunsAtHourMod(plan, plan.utcHour);
      ModSmall(0, i);
      RegularSteps(plan, i, plan.utcHour, plan.utcHour + 24);
    }
    if plan.intervalHours <= 0 { ModAdd(0, 24); ModSmall(0, 24); }
    if Mod(24, i) == 0 {
      forall t | Fires(plan, t) ensures Fires(plan, t + i) && SilentBetween(plan, t, t + i) {
        DividesNext(plan, t);
      }
    }
  }

  lemma ModOffset(d: int, k: int, m: int)
    requires 0 <= k < m && Mod(d, m) == 0
    ensures Mod(d + k, m) == k
  {
    ModUnique(d + k, m, d / m, k);
  }

  lemma DividesNext(plan: Plan, t: int)
    requires Mod(24, Interval(plan)) == 0 && Fires(plan, t)
    ensures Fires(plan, t + Interval(plan)) && SilentBetween(plan, t, t + Interval(plan))
  {
    hide Mod, Fires;
    var i, d := Interval(plan), t - plan.utcHour;
    FiresMeans(plan, t);
    FiresMeans(plan, t + i);
    ModAdd(d, i);
    forall h | t < h < t + i ensures !Fires(plan, h) {
      FiresMeans(plan, h);
      ModOffset(d, h - t, i);
    }
  }

  // ---- One tick -----------------------------------------------------------------------

  function SlotStart(now: int): int
  {
    now / Hour * Hour
  }

  function Minute(now: int): int
  {
    now % Hour / 60
  }

  /** The jitter ladder; 0 means "not this minute". */
  function RunProbability(minute: int, force: bool): real
  {
    if force then 1.0
    else if 1 <= minute <= 9 then 0.05
    else if 10 <= minute <= 20 then 0.10
    else if minute > 30 then 1.0
    else 0.0
  }

  /** Only runs that started after the top of the slot's hour count. */
  ghost predicate HasRunSince(rows: seq<int>, cutoff: int)
  {
    exists i :: 0 <= i < |rows| && rows[i] > cutoff
  }

  /** What a tick has to go by. */
  datatype Look = Look(plan: Plan, force: bool, roll: real)

  /** The tick goes on to submit; a plan or log that cannot be read ends it before this. */
  ghost predicate Submits(look: Look, now: int, rows: seq<int>)
  {
    && !look.plan.paused
    && (look.force || RunsAtHour(look.plan, now / Hour % 24))
    && !HasRunSince(rows, SlotStart(now))
    && RunProbability(Minute(now), look.force) != 0.0
    && look.roll < RunProbability(Minute(now), look.force)
  }

  /** Unforced, nothing runs in minute 0 or in minutes 21 to 30, and the odds only rise. */
  lemma LadderRises(look: Look, now: int, rows: seq<int>, a: int, b: int)
    requires !look.force && 1 <= a <= b <= 59 && !(21 <= b <= 30)
    ensures Minute(now) == 0 || 21 <= Minute(now) <= 30 ==> !Submits(look, now, rows)
    ensures 0.0 <= RunProbability(a, false) <= RunProbability(b, false) <= 1.0 && RunProbability(b, false) > 0.0
    ensures RunProbability(b, false) == 1.0 <==> b > 30
  {
  }

  /** What an unforced tick of a due, unpaused slot without a run goes by: one in twenty, one in ten, then certain. */
  lemma DueSubmitsIff(look: Look, now: int, rows: seq<int>)
    requires !look.force && !look.plan.paused && RunsAtHour(look.plan, now / Hour % 24)
    requires 0.0 <= look.roll < 1.0 && !HasRunSince(rows, SlotStart(now))
    ensures
      var minute := Minute(now);
      Submits(look, now, rows) <==>
        || (1 <= minute <= 9 && look.roll * 20.0 < 1.0) || (10 <= minute <= 20 && look.roll * 10.0 < 1.0)
        || 31 <= minute
  {
    hide RunsAtHour;
  }

  /** The top of the hour is at most an hour back, and minutes are counted from there. */
  lemma SlotOf(now: int)
    ensures SlotStart(now) + 60 * Minute(now) <= now < SlotStart(now) + 60 * Minute(now) + 60
    ensures SlotStart(now) % 3600 == 0 && 0 <= Minute(now) <= 59
  {
  }

  /** The odds that a due slot is still waiting after the ticks of minutes 0 to `minute`. */
  function Waits(minute: nat): real
  {
    (if minute == 0 then 1.0 else Waits(minute - 1)) * (1.0 - RunProbability(minute, false))
  }

  /** About one slot in five is left to the certain tick of minute 31, and none after that. */
  lemma OneInFiveWaits()
    ensures 0.19 < Waits(30) < 0.20 && Waits(31) == 0.0
  {
    assert Waits(3) == 0.857375;
    assert Waits(6) == 0.857375 * 0.857375;
    assert Waits(9) == 0.857375 * 0.857375 * 0.857375;
    assert Waits(12) == Waits(9) * 0.729;
    assert Waits(15) == Waits(12) * 0.729;
    assert Waits(18) == Waits(15) * 0.729;
    assert Waits(20) == Waits(18) * 0.81;
    assert Waits(23) == Waits(20);
    assert Waits(26) == Waits(23);
    assert Waits(29) == Waits(26);
  }

  // ---- Interleavings ------------------------------------------------------------------

  /** Where the queue's snapshot task is, and the slot whose tick it was accepted from. */
  datatype Task = Absent | Held(slot: int) | Begun(slot: int)

  /** A tick between its look and its submission; `raced`: a run has begun in between. */
  datatype Attempt = NoAttempt | Attempt(slot: int, raced: bool)

  datatype State = State(
    clock: int,
    rows: seq<int>,                   // start times in the run log
    task: Task,
    attempt: Attempt,
    accepted: seq<int>,               // the slot of every accepted submission
    races: nat,                       // submissions of an attempt that was raced
    unseen: set<int>)                 // slots whose run left no row the look can see

  datatype Event =
    | Pass(seconds: nat)
    | Tick(look: Look)                // the look
    | Submit                          // RunTask, at the end of the tick
    | Begin(logged: bool)             // the task's turn comes; its log row may fail to be written
    | End
    | Restart                         // the daemon: queue and tick are lost, the log is not

  ghost function Step(s: State, e: Event): State
  {
    match e
    case Pass(seconds) => s.(clock := s.clock + seconds)
    case Tick(look) =>
      if s.attempt.NoAttempt? && Submits(look, s.clock, s.rows)
      then s.(attempt := Attempt(SlotStart(s.clock), false)) else s
    case Submit =>
      if s.attempt.NoAttempt? then s
      else
        var s' := s.(attempt := NoAttempt, races := s.races + if s.attempt.raced then 1 else 0);
        if s.task.Absent? then s'.(task := Held(s.attempt.slot), accepted := s.accepted + [s.attempt.slot]) else s'
    case Begin(logged) =>
      if !s.task.Held? then s
      else
        var seen := logged && s.clock > s.task.slot;
        s.(
          task := if logged then Begun(s.task.slot) else Absent,
          rows := if logged then s.rows + [s.clock] else s.rows,
          attempt := if s.attempt.Attempt? then s.attempt.(raced := true) else NoAttempt,
          unseen := if seen then s.unseen else s.unseen + {s.task.slot})
    case End =>
      if s.task.Begun? then s.(task := Absent) else s
    case Restart =>
      s.(task := Absent, attempt := NoAttempt, unseen := if s.task.Held? then s.unseen + {s.task.slot} else s.unseen)
  }

  ghost function Play(s: State, events: seq<Event>): State
    decreases |events|
  {
    if events == [] then s else Play(Step(s, events[0]), events[1..])
  }

  predicate Fresh(s: State)
  {
    s.task.Absent? && s.attempt.NoAttempt? && s.accepted == [] && s.races == 0 && s.unseen == {}
  }

  ghost predicate Inv(s: State)
  {
    // What became of every accepted submission.
    && (forall slot | slot in s.accepted :: s.task == Held(slot) || HasRunSince(s.rows, slot) || slot in s.unseen)
    // A look is out of date only if a run began since.
    && (s.attempt.Attempt? && !s.attempt.raced ==> !HasRunSince(s.rows, s.attempt.slot))
    // A slot accepted twice needed a race or a run that could not be seen.
    && (s.races == 0 && s.unseen == {} ==> NoRepeats(s.accepted))
  }

  ghost predicate NoRepeats(slots: seq<int>)
  {
    forall i, j | 0 <= i < j < |slots| :: slots[i] != slots[j]
  }

  lemma RowsGrow(rows: seq<int>, start: int)
    ensures forall cutoff | HasRunSince(rows, cutoff) :: HasRunSince(rows + [start], cutoff)
    ensures forall cutoff | start > cutoff :: HasRunSince(rows + [start], cutoff)
  {
    forall cutoff | HasRunSince(rows, cutoff) ensures HasRunSince(rows + [start], cutoff) {
      var i :| 0 <= i < |rows| && rows[i] > cutoff;
      assert (rows + [start])[i] > cutoff;
    }
    forall cutoff | start > cutoff ensures HasRunSince(rows + [start], cutoff) {
      assert (rows + [start])[|rows|] > cutoff;
    }
  }

  /** When a slot is accepted a second time: a run of it was not seen by the look. */
  lemma SecondAcceptance(s: State)
    requires Inv(s) && s.attempt.Attempt? && s.attempt.slot in s.accepted
    ensures Step(s, Submit).accepted != s.accepted <==> s.task.Absent?
    ensures s.task.Absent? ==> s.attempt.raced || s.attempt.slot in s.unseen
  {
    if s.task.Absent? {
      assert |Step(s, Submit).accepted| > |s.accepted|;
    }
  }

  lemma StepKeepsInv(s: State, e: Event)
    requires Inv(s)
    ensures Inv(Step(s, e))
  {
    match e
    case Pass(_) =>
    case Tick(_) =>
    case End =>
    case Restart =>
    case Begin(logged) => if logged { RowsGrow(s.rows, s.clock); }
    case Submit =>
      if s.attempt.Attempt? && s.attempt.slot in s.accepted { SecondAcceptance(s); }
  }

  lemma {:induction false} PlayKeepsInv(s: State, events: seq<Event>)
    requires Inv(s)
    ensures Inv(Play(s, events))
    decreases |events|
  {
    if events != [] {
      StepKeepsInv(s, events[0]);
      PlayKeepsInv(Step(s, events[0]), events[1..]);
    }
  }

  /**
    Under any interleaving, restarts included, no slot is accepted twice, unless a run began
    while a tick was between its look and its submission or an accepted run left no row that
    the look counts: its row failed to be written, or the daemon restarted before its turn.
  */
  lemma AtMostOnePerSlot(s: State, events: seq<Event>)
    requires Fresh(s)
    ensures
      var t := Play(s, events);
      t.races == 0 && t.unseen == {} ==> NoRepeats(t.accepted)
  {
    PlayKeepsInv(s, events);
  }

  lemma {:induction false} PlayBeforeSubmit(s: State, events: seq<Event>, slot: int)
    requires Submit !in events && Restart !in events
    ensures
      var t := Play(s, events);
      && (HasRunSince(s.rows, slot) ==> HasRunSince(t.rows, slot))
      && (s.attempt.Attempt? ==> t.attempt.Attempt?)
    decreases |events|
  {
    if events != [] {
      if events[0].Begin? { RowsGrow(s.rows, s.clock); }
      PlayBeforeSubmit(Step(s, events[0]), events[1..], slot);
    }
  }

  /**
    However the queue and the clock move during a tick that looks after minute 30 of an
    unpaused slot: it goes on to submit exactly if no run of the slot is recorded, and when
    it is over, one is or the queue holds the snapshot.
  */
  lemma LateTickIsEnough(s: State, look: Look, meanwhile: seq<Event>)
    requires s.attempt.NoAttempt? && Submit !in meanwhile && Restart !in meanwhile
    requires !look.plan.paused && RunsAtHour(look.plan, s.clock / Hour % 24) && Minute(s.clock) > 30 && look.roll < 1.0
    ensures Step(s, Tick(look)).attempt.Attempt? <==> !HasRunSince(s.rows, SlotStart(s.clock))
    ensures
      var t := Step(Play(Step(s, Tick(look)), meanwhile), Submit);
      HasRunSince(t.rows, SlotStart(s.clock)) || !t.task.Absent?
  {
    hide RunsAtHour;
    PlayBeforeSubmit(Step(s, Tick(look)), meanwhile, SlotStart(s.clock));
  }

  /** While the plan is paused nothing is accepted, however often a tick looks and whether forced or not. */
  lemma {:induction false} PausedNeverRuns(s: State, events: seq<Event>)
    requires s.attempt.NoAttempt? && forall i | 0 <= i < |events| && events[i].Tick? :: events[i].look.plan.paused
    ensures Play(s, events).accepted == s.accepted
    decreases |events|
  {
    if events != [] { PausedNeverRuns(Step(s, events[0]), events[1..]); }
  }

  // ---- The ways a slot is accepted twice ----------------------------------------------

  lemma PlayFirst(s: State, e: Event, rest: seq<Event>)
    ensures Play(s, [e] + rest) == Play(Step(s, e), rest)
  {
    assert ([e] + rest)[1..] == rest;
  }

  const Daily := Look(Plan(3, 24, false), false, 0.5)
  const AtHalfPast := State(3 * Hour + 31 * 60, [], Absent, NoAttempt, [], 0, {})

  lemma DailySubmits(now: int, rows: seq<int>)
    requires 3 * Hour + 31 * 60 <= now < 4 * Hour && rows == []
    ensures Submits(Daily, now, rows) && SlotStart(now) == 3 * Hour
  {
    RunsAtHourMod(Daily.plan, 3);
    ModSmall(0, 24);
  }

  /** The run begins and ends while the next tick is between its look and its submission. */
  lemma RaceAcceptsTwice() returns (events: seq<Event>)
    ensures var t := Play(AtHalfPast, events); t.accepted == [3 * Hour, 3 * Hour] && t.unseen == {}
  {
    hide Submits;
    DailySubmits(AtHalfPast.clock, []);
    DailySubmits(AtHalfPast.clock + 60, []);
    var s1 := Step(Step(Step(AtHalfPast, Tick(Daily)), Submit), Pass(60));
    var s2 := Step(Step(Step(Step(s1, Tick(Daily)), Begin(true)), End), Submit);
    var later := [Tick(Daily)] + ([Begin(true)] + ([End] + ([Submit] + [])));
    events := [Tick(Daily)] + ([Submit] + ([Pass(60)] + later));
    PlayFirst(AtHalfPast, Tick(Daily), [Submit] + ([Pass(60)] + later));
    PlayFirst(Step(AtHalfPast, Tick(Daily)), Submit, [Pass(60)] + later);
    PlayFirst(Step(Step(AtHalfPast, Tick(Daily)), Submit), Pass(60), later);
    PlayFirst(s1, Tick(Daily), [Begin(true)] + ([End] + ([Submit] + [])));
    PlayFirst(Step(s1, Tick(Daily)), Begin(true), [End] + ([Submit] + []));
    PlayFirst(Step(Step(s1, Tick(Daily)), Begin(true)), End, [Submit] + []);
    PlayFirst(Step(Step(Step(s1, Tick(Daily)), Begin(true)), End), Submit, []);
    assert Play(AtHalfPast, events) == s2;
  }

  /** The run's log row could not be written, so the next tick submits again. */
  lemma LostRowAcceptsTwice() returns (events: seq<Event>)
    ensures var t := Play(AtHalfPast, events); t.accepted == [3 * Hour, 3 * Hour] && t.races == 0
  {
    hide Submits;
    DailySubmits(AtHalfPast.clock, []);
    DailySubmits(AtHalfPast.clock + 60, []);
    var s1 := Step(Step(Step(AtHalfPast, Tick(Daily)), Submit), Begin(false));
    var s2 := Step(Step(Step(s1, Pass(60)), Tick(Daily)), Submit);
    var later := [Pass(60)] + ([Tick(Daily)] + ([Submit] + []));
    events := [Tick(Daily)] + ([Submit] + ([Begin(false)] + later));
    PlayFirst(AtHalfPast, Tick(Daily), [Submit] + ([Begin(false)] + later));
    PlayFirst(Step(AtHalfPast, Tick(Daily)), Submit, [Begin(false)] + later);
    PlayFirst(Step(Step(AtHalfPast, Tick(Daily)), Submit), Begin(false), later);
    PlayFirst(s1, Pass(60), [Tick(Daily)] + ([Submit] + []));
    PlayFirst(Step(s1, Pass(60)), Tick(Daily), [Submit] + []);
    PlayFirst(Step(Step(s1, Pass(60)), Tick(Daily)), Submit, []);
    assert Play(AtHalfPast, events) == s2;
  }

  /** The daemon restarts while the run still waits for its turn, so the next tick submits again. */
  lemma RestartAcceptsTwice() returns (events: seq<Event>)
    ensures var t := Play(AtHalfPast, events); t.accepted == [3 * Hour, 3 * Hour] && t.races == 0
  {
    hide Submits;
    DailySubmits(AtHalfPast.clock, []);
    var s1 := Step(Step(Step(AtHalfPast, Tick(Daily)), Submit), Restart);
    var later := [Tick(Daily)] + ([Submit] + []);
    events := [Tick(Daily)] + ([Submit] + ([Restart] + later));
    PlayFirst(AtHalfPast, Tick(Daily), [Submit] + ([Restart] + later));
    PlayFirst(Step(AtHalfPast, Tick(Daily)), Submit, [Restart] + later);
    PlayFirst(Step(Step(AtHalfPast, Tick(Daily)), Submit), Restart, later);
    PlayFirst(s1, Tick(Daily), [Submit] + []);
    PlayFirst(Step(s1, Tick(Daily)), Submit, []);
    assert Play(AtHalfPast, events) == Step(Step(s1, Tick(Daily)), Submit);
  }
}
