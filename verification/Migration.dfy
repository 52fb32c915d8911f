/**
  Moving a deployment from per-instance backup schedules to one snapshot schedule
  (internal/cli/snapshot_migrate_actions.go against the daemon's handlers).
*/
module Migration {
  import opened Basics
  import Scheduler

  datatype BackupPlan = BackupPlan(name: string, utcHour: int, localDays: int, remoteDays: int)

  datatype SnapshotPlan = SnapshotPlan(utcHour: int, intervalHours: int, localDays: int, remoteDays: int)

  // ---- Deriving the plan --------------------------------------------------------------

  function Count(plans: seq<BackupPlan>, hour: int): nat
  {
    if plans == [] then 0 else (if plans[0].utcHour == hour then 1 else 0) + Count(plans[1..], hour)
  }

  /** The order the hours are sorted by: most frequent first, earlier first among equals. */
  predicate Before(plans: seq<BackupPlan>, a: int, b: int)
  {
    if Count(plans, a) != Count(plans, b) then Count(plans, a) > Count(plans, b) else a < b
  }

  ghost predicate BestHour(plans: seq<BackupPlan>, hour: int)
  {
    && (exists i :: 0 <= i < |plans| && plans[i].utcHour == hour)
    && forall i | 0 <= i < |plans| && plans[i].utcHour != hour :: Before(plans, hour, plans[i].utcHour)
  }

  /** The least number of days that no source exceeds. */
  ghost predicate Covers(days: int, sources: seq<int>)
  {
    && days >= 0 && (forall i | 0 <= i < |sources| :: sources[i] <= days)
    && (days == 0 || exists i :: 0 <= i < |sources| && sources[i] == days)
  }

  function LocalDays(plans: seq<BackupPlan>): seq<int>
  {
    seq(|plans|, i requires 0 <= i < |plans| => plans[i].localDays)
  }

  function RemoteDays(plans: seq<BackupPlan>): seq<int>
  {
    seq(|plans|, i requires 0 <= i < |plans| => plans[i].remoteDays)
  }

  ghost predicate IsDerived(plans: seq<BackupPlan>, plan: SnapshotPlan)
  {
    && BestHour(plans, plan.utcHour) && plan.intervalHours == 24
    && Covers(plan.localDays, LocalDays(plans)) && Covers(plan.remoteDays, RemoteDays(plans))
  }

  ghost predicate Counts(plans: seq<BackupPlan>, counts: map<int, nat>)
  {
    && (forall h | h in counts :: counts[h] == Count(plans, h) && exists i :: 0 <= i < |plans| && plans[i].utcHour == h)
    && (forall i | 0 <= i < |plans| :: plans[i].utcHour in counts)
  }

  lemma {:induction false} CountAppend(a: seq<BackupPlan>, b: seq<BackupPlan>, hour: int)
    ensures Count(a + b, hour) == Count(a, hour) + Count(b, hour)
  {
    if a == [] {
      assert a + b == b;
    } else {
      assert (a + b)[1..] == a[1..] + b;
      CountAppend(a[1..], b, hour);
    }
  }

  method CountHours(plans: seq<BackupPlan>) returns (counts: map<int, nat>)
    ensures Counts(plans, counts)
  {
    counts := map[];
    for i := 0 to |plans|
      invariant Counts(plans[..i], counts)
    {
      var h := plans[i].utcHour;
      ghost var before := counts;
      counts := counts[h := (if h in counts then counts[h] else 0) + 1];
      CountsNext(plans[..i], before, plans[i], counts);
      assert plans[..i + 1] == plans[..i] + [plans[i]];
    }
    assert plans[..|plans|] == plans;
  }

  lemma CountsNext(plans: seq<BackupPlan>, counts: map<int, nat>, p: BackupPlan, counts': map<int, nat>)
    requires Counts(plans, counts)
    requires counts' == counts[p.utcHour := (if p.utcHour in counts then counts[p.utcHour] else 0) + 1]
    ensures Counts(plans + [p], counts')
  {
    var plans' := plans + [p];
    assert p.utcHour !in counts ==> Count(plans, p.utcHour) == 0 by { NoneCounted(plans, p.utcHour); }
    forall h | h in counts'
      ensures counts'[h] == Count(plans', h) && exists i :: 0 <= i < |plans'| && plans'[i].utcHour == h
    {
      CountAppend(plans, [p], h);
      assert Count([p], h) == if p.utcHour == h then 1 else 0;
      if h == p.utcHour {
        assert plans'[|plans|].utcHour == h;
      } else {
        var i :| 0 <= i < |plans| && plans[i].utcHour == h;
        assert plans'[i].utcHour == h;
      }
    }
  }

  lemma {:induction false} NoneCounted(plans: seq<BackupPlan>, hour: int)
    ensures (forall i | 0 <= i < |plans| :: plans[i].utcHour != hour) <==> Count(plans, hour) == 0
  {
    if plans != [] {
      NoneCounted(plans[1..], hour);
      assert plans == [plans[0]] + plans[1..];
    }
  }

  method MaxDays(sources: seq<int>) returns (days: int)
    ensures Covers(days, sources)
  {
    days := 0;
    for i := 0 to |sources|
      invariant Covers(days, sources[..i])
    {
      CoversNext(days, sources[..i], sources[i]);
      assert sources[..i + 1] == sources[..i] + [sources[i]];
      if sources[i] > days { days := sources[i]; }
    }
    assert sources[..|sources|] == sources;
  }

  /** The hour that comes first once the counted hours are sorted. */
  method FirstHour(plans: seq<BackupPlan>, counts: map<int, nat>) returns (best: int)
    requires plans != [] && Counts(plans, counts)
    ensures BestHour(plans, best)
  {
    best := plans[0].utcHour;
    for i := 1 to |plans|
      invariant exists j :: 0 <= j < i && plans[j].utcHour == best
      invariant forall j | 0 <= j < i && plans[j].utcHour != best :: Before(plans, best, plans[j].utcHour)
    {
      var h := plans[i].utcHour;
      if counts[h] > counts[best] || (counts[h] == counts[best] && h < best) { best := h; }
    }
  }

  method DerivedPlan(plans: seq<BackupPlan>) returns (plan: SnapshotPlan)
    requires plans != []
    ensures IsDerived(plans, plan)
  {
    var counts := CountHours(plans);
    var best := FirstHour(plans, counts);
    var local := MaxDays(LocalDays(plans));
    var remote := MaxDays(RemoteDays(plans));
    plan := SnapshotPlan(best, 24, local, remote);
  }

  lemma CoversNext(days: int, sources: seq<int>, next: int)
    requires Covers(days, sources)
    ensures Covers(if next > days then next else days, sources + [next])
  {
    var s := sources + [next];
    if next > days {
      assert s[|sources|] == next;
    } else if days != 0 {
      var i :| 0 <= i < |sources| && sources[i] == days;
      assert s[i] == days;
    }
  }

  lemma {:induction false} CountPermutes(a: seq<BackupPlan>, b: seq<BackupPlan>, hour: int)
    requires multiset(a) == multiset(b)
    ensures Count(a, hour) == Count(b, hour)
  {
    if a != [] {
      var x := a[0];
      assert a == [x] + a[1..];
      assert x in multiset(b);
      var i :| 0 <= i < |b| && b[i] == x;
      var rest := b[..i] + b[i + 1..];
      assert b == b[..i] + ([x] + b[i + 1..]);
      assert multiset(a[1..]) == multiset(a) - multiset{x};
      assert multiset(rest) == multiset(b) - multiset{x};
      CountPermutes(a[1..], rest, hour);
      CountAppend([x], a[1..], hour);
      CountAppend(b[..i], b[i + 1..], hour);
      CountAppend(b[..i], [x] + b[i + 1..], hour);
      CountAppend([x], b[i + 1..], hour);
    } else {
      assert b == [] by { assert |multiset(b)| == |b|; }
    }
  }

  /** The derived plan depends on the schedules alone, not on the order they come in. */
  lemma DerivedIsUnique(a: seq<BackupPlan>, b: seq<BackupPlan>, p: SnapshotPlan, q: SnapshotPlan)
    requires multiset(a) == multiset(b) && IsDerived(a, p) && IsDerived(b, q)
    ensures p == q
  {
    forall x | x in a ensures x in b { assert x in multiset(a); }
    forall x | x in b ensures x in a { assert x in multiset(b); }
    CountPermutes(a, b, p.utcHour);
    CountPermutes(a, b, q.utcHour);
    HourAmong(a, b, p.utcHour);
    HourAmong(b, a, q.utcHour);
    DaysAmong(a, b);
    DaysAmong(b, a);
    CoversUnique(p.localDays, LocalDays(a), q.localDays, LocalDays(b));
    CoversUnique(p.remoteDays, RemoteDays(a), q.remoteDays, RemoteDays(b));
  }

  lemma HourAmong(a: seq<BackupPlan>, b: seq<BackupPlan>, hour: int)
    requires (forall x | x in a :: x in b) && exists i :: 0 <= i < |a| && a[i].utcHour == hour
    ensures exists j :: 0 <= j < |b| && b[j].utcHour == hour
  {
    var i :| 0 <= i < |a| && a[i].utcHour == hour;
    assert a[i] in b;
  }

  lemma DaysAmong(a: seq<BackupPlan>, b: seq<BackupPlan>)
    requires forall x | x in a :: x in b
    ensures forall i | 0 <= i < |a| :: LocalDays(a)[i] in LocalDays(b) && RemoteDays(a)[i] in RemoteDays(b)
  {
    forall i | 0 <= i < |a| ensures LocalDays(a)[i] in LocalDays(b) && RemoteDays(a)[i] in RemoteDays(b) {
      assert a[i] in b;
      var j :| 0 <= j < |b| && b[j] == a[i];
      assert LocalDays(b)[j] == a[i].localDays && RemoteDays(b)[j] == a[i].remoteDays;
    }
  }

  lemma CoversUnique(x: int, a: seq<int>, y: int, b: seq<int>)
    requires Covers(x, a) && Covers(y, b)
    requires (forall i | 0 <= i < |a| :: a[i] in b) && (forall i | 0 <= i < |b| :: b[i] in a)
    ensures x == y
  {
    assert (x == 0 || x in b) && (y == 0 || y in a);
  }

  // ---- The requests -------------------------------------------------------------------

  datatype State = State(schedules: map<string, BackupPlan>, plan: Option<SnapshotPlan>)

  const ValidIntervals := {1, 2, 3, 4, 6, 8, 12, 24}

  function OrElse(days: int, fallback: int): int
  {
    if days == 0 then fallback else days
  }

  /** What the daemon stores for a requested plan: zeros keep what is there, and nonsense is refused. */
  function Stored(existing: Option<SnapshotPlan>, p: SnapshotPlan): Option<SnapshotPlan>
  {
    var d := if existing.Some? then existing.value else SnapshotPlan(0, 24, 7, 14);
    var q := SnapshotPlan(p.utcHour, OrElse(p.intervalHours, d.intervalHours), OrElse(p.localDays, d.localDays),
                          OrElse(p.remoteDays, d.remoteDays));
    if 0 <= p.utcHour <= 23 && q.intervalHours in ValidIntervals && q.localDays >= 1 && q.remoteDays >= 1
    then Some(q) else None
  }

  /** What the daemon makes of a request: zeros ask for what is there, and what it takes can be kept. */
  lemma StoredMeans(existing: Option<SnapshotPlan>, p: SnapshotPlan)
    ensures Stored(existing, p).Some? ==>
      var q := Stored(existing, p).value;
      && q.utcHour == p.utcHour && 0 <= q.utcHour <= 23 && q.localDays >= 1 && q.remoteDays >= 1
      && (p.intervalHours != 0 ==> q.intervalHours == p.intervalHours)
      && (p.localDays != 0 ==> q.localDays == p.localDays) && (p.remoteDays != 0 ==> q.remoteDays == p.remoteDays)
      && (existing.Some? && p.intervalHours == 0 ==> q.intervalHours == existing.value.intervalHours)
      && (existing.Some? && p.localDays == 0 ==> q.localDays == existing.value.localDays)
      && (existing.Some? && p.remoteDays == 0 ==> q.remoteDays == existing.value.remoteDays)
      && (existing.None? && p.intervalHours == 0 ==> q.intervalHours == 24)
      && (existing.None? && p.localDays == 0 ==> q.localDays == 7)
      && (existing.None? && p.remoteDays == 0 ==> q.remoteDays == 14)
      // Whatever the daemon takes runs at regular intervals, across every midnight.
      && Scheduler.Regular(Scheduler.Plan(q.utcHour, q.intervalHours, false), q.intervalHours)
    ensures
      && 0 <= p.utcHour <= 23 && p.intervalHours > 0 && 24 % p.intervalHours == 0
      && p.localDays >= 1 && p.remoteDays >= 1
      ==> Stored(existing, p) == Some(p)
    ensures 0 <= p.utcHour <= 23 ==>
      Stored(None, SnapshotPlan(p.utcHour, 0, 0, 0)) == Some(SnapshotPlan(p.utcHour, 24, 7, 14))
  {
    if Stored(existing, p).Some? {
      var q := Stored(existing, p).value;
      DividesADay(q.intervalHours);
      Scheduler.RegularIffDivides(Scheduler.Plan(q.utcHour, q.intervalHours, false));
    }
    if p.intervalHours > 0 && 24 % p.intervalHours == 0 { DividesADay(p.intervalHours); }
  }

  lemma DividesADay(i: int)
    ensures i in ValidIntervals <==> i > 0 && 24 % i == 0
    ensures i in ValidIntervals ==> Scheduler.Whole(24, i)
  {
    if i > 24 { assert 24 % i == 24; }
    if i in ValidIntervals { assert 24 == Scheduler.Times(24 / i, i); }
  }

  /** The daemon, and every state it has been in: the client can be cut off after any request. */
  class Daemon {
    var st: State
    var seen: set<State>

    /** Requests that failed although they made sense; their effect may have happened. */
    ghost var faults: nat

    method SetPlan(p: SnapshotPlan) returns (ok: bool)
      modifies this
      ensures st == old(st) || (Stored(old(st).plan, p).Some? && st == old(st).(plan := Stored(old(st).plan, p)))
      ensures ok ==> Stored(old(st).plan, p).Some? && st.plan == Stored(old(st).plan, p)
      ensures seen == old(seen) + {st}
      ensures faults == old(faults) + if !ok && Stored(old(st).plan, p).Some? then 1 else 0
    {
      var q := Stored(st.plan, p);
      ok := *;
      var effective := *;
      ok := ok && q.Some?;
      if !ok && q.Some? { faults := faults + 1; }
      if q.Some? && (ok || effective) { st := st.(plan := q); }
      seen := seen + {st};
    }

    /** Deleting a schedule that is not there is an error. */
    method DeleteSchedule(name: string) returns (ok: bool)
      modifies this
      ensures st == old(st) || st == old(st).(schedules := old(st).schedules - {name})
      ensures ok ==> name in old(st).schedules && st.schedules == old(st).schedules - {name}
      ensures seen == old(seen) + {st}
      ensures faults == old(faults) + if !ok && name in old(st).schedules then 1 else 0
    {
      ok := *;
      var effective := *;
      ok := ok && name in st.schedules;
      if !ok && name in st.schedules { faults := faults + 1; }
      if ok || effective { st := st.(schedules := st.schedules - {name}); }
      seen := seen + {st};
    }
  }

  /** No backup schedule has gone unless snapshots are scheduled, and none has come. */
  ghost predicate Protected(s0: State, s: State)
  {
    && s.schedules.Keys <= s0.schedules.Keys
    && (forall name | name in s.schedules :: s.schedules[name] == s0.schedules[name])
    && (s.schedules != s0.schedules ==> s.plan.Some?)
    && (s0.plan.Some? ==> s.plan.Some?)
  }

  ghost predicate ProtectedAlong(d: Daemon, s0: State, seen0: set<State>)
    reads d
  {
    seen0 <= d.seen && Protected(s0, d.st) && forall s | s in d.seen && s !in seen0 :: Protected(s0, s)
  }

  /** The answer to "list the schedules". */
  ghost predicate Lists(plans: seq<BackupPlan>, schedules: map<string, BackupPlan>)
  {
    && (forall i | 0 <= i < |plans| :: plans[i].name in schedules && schedules[plans[i].name] == plans[i])
    && (forall i, j | 0 <= i < j < |plans| :: plans[i].name != plans[j].name)
    && (forall name | name in schedules :: exists i :: 0 <= i < |plans| && plans[i].name == name)
  }

  datatype Flags = Flags(utcHour: Option<int>, intervalHours: Option<int>, localDays: Option<int>,
      remoteDays: Option<int>)

  const NoFlags := Flags(None, None, None, None)

  function Overridden(p: SnapshotPlan, f: Flags): SnapshotPlan
  {
    SnapshotPlan(
      if f.utcHour.Some? then f.utcHour.value else p.utcHour,
      if f.intervalHours.Some? then f.intervalHours.value else p.intervalHours,
      if f.localDays.Some? then f.localDays.value else p.localDays,
      if f.remoteDays.Some? then f.remoteDays.value else p.remoteDays)
  }

  /** A flag that was given sets its own field, and nothing else does. */
  predicate SetsField(flag: Option<int>, base: int, got: int)
  {
    (flag.Some? && flag.value != 0 ==> got == flag.value) && (flag.None? && base != 0 ==> got == base)
  }

  /** What the flags make of the plan there was to begin with. */
  predicate Honours(got: SnapshotPlan, base: SnapshotPlan, f: Flags)
  {
    && got.utcHour == (match f.utcHour case Some(h) => h case None => base.utcHour)
    && SetsField(f.intervalHours, base.intervalHours, got.intervalHours)
    && SetsField(f.localDays, base.localDays, got.localDays)
    && SetsField(f.remoteDays, base.remoteDays, got.remoteDays)
  }

  /** Flags the daemon accepts, over any plan it has accepted before. */
  predicate SaneFlags(f: Flags)
  {
    && (f.utcHour.Some? ==> 0 <= f.utcHour.value <= 23)
    && (f.intervalHours.Some? ==> f.intervalHours.value > 0 && 24 % f.intervalHours.value == 0)
    && (f.localDays.Some? ==> f.localDays.value >= 1) && (f.remoteDays.Some? ==> f.remoteDays.value >= 1)
  }

  lemma Overrides(existing: Option<SnapshotPlan>, base: SnapshotPlan, f: Flags)
    ensures Stored(existing, base).Some? && SaneFlags(f) ==> Stored(existing, Overridden(base, f)).Some?
    ensures Stored(existing, Overridden(base, f)).Some? ==>
      Honours(Stored(existing, Overridden(base, f)).value, base, f)
    ensures Honours(base, base, NoFlags) && Overridden(base, NoFlags) == base
  {
    if f.intervalHours.Some? { DividesADay(f.intervalHours.value); }
  }

  datatype Outcome = Nothing | Already | Declined | Incomplete | Migrated

  /** Retire the listed schedules one by one; stop at the first that fails. */
  method RemoveSchedules(d: Daemon, plans: seq<BackupPlan>, ghost s0: State, ghost seen0: set<State>) returns (ok: bool)
    requires ProtectedAlong(d, s0, seen0) && d.st.plan.Some? && Lists(plans, d.st.schedules)
    modifies d
    ensures ProtectedAlong(d, s0, seen0) && d.st.plan == old(d.st).plan
    ensures ok ==> d.st.schedules == map[]
    ensures d.faults >= old(d.faults) && (d.faults == old(d.faults) ==> ok)
  {
    for i := 0 to |plans|
      invariant ProtectedAlong(d, s0, seen0) && d.st.plan == old(d.st).plan && d.faults == old(d.faults)
      invariant d.st.schedules.Keys <= old(d.st).schedules.Keys
      invariant forall j | 0 <= j < |plans| :: plans[j].name in d.st.schedules <==> i <= j
    {
      ok := d.DeleteSchedule(plans[i].name);
      if !ok { return; }
    }
    assert forall name | name in old(d.st).schedules :: exists i :: 0 <= i < |plans| && plans[i].name == name;
    ok := true;
  }

  /** Schedule snapshots first, unless an untouched plan is kept; only then retire the backups. */
  method ApplyMigration(d: Daemon, plans: seq<BackupPlan>, plan: SnapshotPlan, keep: bool) returns (ok: bool)
    requires Lists(plans, d.st.schedules) && (keep ==> d.st.plan.Some?)
    modifies d
    ensures ProtectedAlong(d, old(d.st), old(d.seen))
    ensures ok ==> d.st.schedules == map[] && d.st.plan == if keep then old(d.st).plan else Stored(old(d.st).plan, plan)
    ensures ok ==> d.st.plan.Some?
    ensures d.faults >= old(d.faults)
    ensures d.faults == old(d.faults) ==> (ok <==> keep || Stored(old(d.st).plan, plan).Some?)
  {
    ghost var s0, seen0 := d.st, d.seen;
    if !keep {
      ok := d.SetPlan(plan);
      if !ok { return; }
    }
    ok := RemoveSchedules(d, plans, s0, seen0);
  }

  /** The whole command; `plans` and the existing plan are what the daemon answered. */
  method Migrate(d: Daemon, plans: seq<BackupPlan>, flags: Flags, confirmed: bool) returns (r: Outcome)
    requires Lists(plans, d.st.schedules)
    modifies d
    ensures ProtectedAlong(d, old(d.st), old(d.seen))
    ensures r.Nothing? || r.Already? || r.Declined? ==> d.st == old(d.st)
    ensures r.Already? || r.Migrated? ==> d.st.schedules == map[] && d.st.plan.Some?
    ensures r.Nothing? <==> plans == [] && old(d.st).plan.None?
    ensures d.faults >= old(d.faults)
    // An untouched plan is kept; a new one is at least as generous as every schedule it replaces.
    ensures r.Migrated? && flags == NoFlags && old(d.st).plan.Some? ==> d.st.plan == old(d.st).plan
    ensures r.Migrated? && flags == NoFlags && old(d.st).plan.None? ==>
      forall i | 0 <= i < |plans| ::
        plans[i].localDays <= d.st.plan.value.localDays && plans[i].remoteDays <= d.st.plan.value.remoteDays
    // The flags that were given, on top of the plan there was or the derived one.
    ensures r.Migrated? ==>
      exists base :: (if old(d.st).plan.Some? then Some(base) == old(d.st).plan else IsDerived(plans, base))
        && Honours(d.st.plan.value, base, flags)
    // When it gets through: with a plan to keep or sane sources, and sane flags if any.
    ensures d.faults == old(d.faults) && confirmed && plans != [] && SaneFlags(flags) ==>
      if old(d.st).plan.Some?
      then flags == NoFlags || Stored(old(d.st).plan, old(d.st).plan.value).Some? ==> r.Migrated?
      else (forall i | 0 <= i < |plans| :: 0 <= plans[i].utcHour <= 23) ==> r.Migrated?
    ensures r.Already? <==> plans == [] && old(d.st).plan.Some?
    ensures r.Declined? <==> plans != [] && !confirmed
  {
    hide IsDerived, ProtectedAlong, Stored, Honours, Overridden, SaneFlags;
    var existing := d.st.plan;
    Untouched(d);
    if plans == [] { return if existing.Some? then Already else Nothing; }
    var plan := DerivedPlan(plans);
    ghost var derived := plan;
    if existing.Some? { plan := existing.value; }
    plan := Overridden(plan, flags);
    if !confirmed { return Declined; }
    DerivedIsAccepted(plans, derived);
    ghost var base := if existing.Some? then existing.value else derived;
    Overrides(existing, base, flags);
    var ok := ApplyMigration(d, plans, plan, existing.Some? && flags == NoFlags);
    r := if ok then Migrated else Incomplete;
  }

  lemma Untouched(d: Daemon)
    ensures ProtectedAlong(d, d.st, d.seen)
  {
  }

  /** With sane hours the daemon takes a derived plan, and never shortens what it asks for. */
  lemma DerivedIsAccepted(plans: seq<BackupPlan>, plan: SnapshotPlan)
    requires IsDerived(plans, plan)
    ensures (forall i | 0 <= i < |plans| :: 0 <= plans[i].utcHour <= 23) ==> Stored(None, plan).Some?
    ensures Stored(None, plan).Some? ==>
      forall i | 0 <= i < |plans| ::
        && plans[i].localDays <= Stored(None, plan).value.localDays
        && plans[i].remoteDays <= Stored(None, plan).value.remoteDays
  {
    assert 24 in ValidIntervals;
    forall i | 0 <= i < |plans| ensures plans[i].localDays <= plan.localDays && plans[i].remoteDays <= plan.remoteDays {
      assert LocalDays(plans)[i] == plans[i].localDays && RemoteDays(plans)[i] == plans[i].remoteDays;
    }
  }

  /**
    Running the command again after any partial run: without further faults no backup
    schedule is left and snapshots are scheduled.
  */
  method MigrateAgain(d: Daemon, plans: seq<BackupPlan>, ghost s0: State) returns (r: Outcome)
    requires s0.schedules != map[] && Protected(s0, d.st) && Lists(plans, d.st.schedules)
    requires forall name | name in s0.schedules :: 0 <= s0.schedules[name].utcHour <= 23
    modifies d
    ensures d.faults == old(d.faults) ==> d.st.schedules == map[] && d.st.plan.Some?
    ensures ProtectedAlong(d, old(d.st), old(d.seen)) && Protected(s0, d.st)
  {
    assert plans == [] ==> d.st.schedules == map[];
    r := Migrate(d, plans, NoFlags, true);
  }
}
