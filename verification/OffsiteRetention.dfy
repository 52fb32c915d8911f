/**
  Age-based retention of one instance's offsite copies (runRemoteCleanup in
  internal/operations/cron_task.go).
*/
module OffsiteRetention {
  import opened Basics
  import opened BackupShelf

  /** One night's pass: its inputs, and the shelf as it found it. */
  datatype Pass = Pass(list: seq<Record>, cutoff: int, cfg: Offsite, records0: map<nat, Record>, files: set<Path>,
      objects0: set<Location>)

  ghost predicate WfPass(night: Pass)
  {
    Catalogue(night.records0) && Listing(night.list, night.records0, night.files)
  }

  /** What must hold of a record for a delete request to be sent: old, ours, and not held by the floor. */
  predicate Deletable(rec: Record, held: bool, cutoff: int, cfg: Offsite)
  {
    rec.remote.Some? && Ours(cfg, rec.remote.value) && rec.time < cutoff && !held
  }

  /** The offsite copy of this record is out of the catalogue: the row, or just its location. */
  predicate Forgotten(rec: Record, records: map<nat, Record>)
  {
    if rec.local.None? then rec.id !in records else rec.id in records && records[rec.id] == rec.(remote := None)
  }

  /** What became of one record: as it was, or forgotten after a delete request was answered. */
  ghost predicate RecordFate(rec: Record, deletable: bool, clean: bool, cfg: Offsite, records: map<nat, Record>,
      objects: set<Location>)
  {
    && ( || (rec.id in records && records[rec.id] == rec)
         || (deletable && rec.remote.Some? && Ours(cfg, rec.remote.value)
             && Target(cfg, rec.remote.value) !in objects && Forgotten(rec, records)))
    && (deletable && clean && rec.remote.Some? && Ours(cfg, rec.remote.value) ==>
          Target(cfg, rec.remote.value) !in objects && Forgotten(rec, records))
  }

  /** What one turn does to the shelf besides. */
  ghost predicate TurnFrame(rec: Record, deletable: bool, cfg: Offsite,
                            records: map<nat, Record>, objects: set<Location>, records': map<nat, Record>,
                        objects': set<Location>)
  {
    && (forall id | id in records && id != rec.id :: id in records' && records'[id] == records[id])
    && (forall id | id in records' && id != rec.id :: id in records)
    && objects' <= objects
    && forall l | l in objects && l !in objects' ::
         deletable && rec.remote.Some? && Ours(cfg, rec.remote.value) && Target(cfg, rec.remote.value) == l
  }

  /** A lookup that works says "present". */
  predicate Answers(cfg: Offsite, l: Location, objects: set<Location>)
  {
    !Ours(cfg, l) || Target(cfg, l) in objects
  }

  /** One turn: ask while the floor fills, then send the delete request for what is old and in our bucket. */
  method RetainRemote(shelf: Shelf, rec: Record, kept: nat, cutoff: int, cfg: Offsite, ghost rank: nat)
    returns (kept': nat, held: bool)
    requires rec.id in shelf.records && shelf.records[rec.id] == rec && kept == Capped(rank)
    modifies shelf`objects, shelf`records, shelf`faults, shelf`unproven
    ensures held ==> rec.remote.Some? && rank < MinRetained
    ensures rec.remote.Some? && rank < MinRetained && Answers(cfg, rec.remote.value, old(shelf.objects)) ==> held
    ensures kept' == Capped(rank + if held then 1 else 0)
    ensures shelf.faults >= old(shelf.faults) && shelf.unproven >= old(shelf.unproven)
    ensures held && shelf.unproven == old(shelf.unproven) ==> rec.remote.value in old(shelf.objects)
    ensures RecordFate(rec, Deletable(rec, held, cutoff, cfg), shelf.faults == old(shelf.faults), cfg,
        shelf.records, shelf.objects)
    ensures TurnFrame(rec, Deletable(rec, held, cutoff, cfg), cfg, old(shelf.records), old(shelf.objects),
        shelf.records, shelf.objects)
  {
    kept', held := kept, false;
    if rec.remote.None? { return; }
    var l := rec.remote.value;
    if kept < MinRetained {
      held := shelf.RemoteArchivePresent(l, cfg);
      if held {
        kept' := kept + 1;
        return;
      }
    }
    if rec.time < cutoff && Ours(cfg, l) {
      var deleted := shelf.DeleteObject(Target(cfg, l));
      if deleted { var _ := shelf.RemoveRemoteCopy(rec); }
    }
  }

  // ---- The pass -----------------------------------------------------------------------

  /** Every copy in our bucket lies beneath the configured path. */
  predicate Settled(night: Pass)
  {
    forall i | 0 <= i < |night.list| && night.list[i].remote.Some? && Ours(night.cfg, night.list[i].remote.value) ::
      InPlace(night.cfg, night.list[i].remote.value)
  }

  /** Only what delete requests of the first `|marks|` records were sent for is gone. */
  ghost predicate OnlyTargets(night: Pass, marks: seq<bool>, objects: set<Location>)
    requires |marks| <= |night.list|
  {
    && objects <= night.objects0
    && forall l | l in night.objects0 && l !in objects ::
         exists j :: 0 <= j < |marks| && Deletable(night.list[j], marks[j], night.cutoff, night.cfg)
             && Target(night.cfg, night.list[j].remote.value) == l
  }

  /** Who holds the floor: nobody beyond its size, and no copy in place is passed over. */
  ghost predicate Floor(night: Pass, marks: seq<bool>)
    requires |marks| <= |night.list|
  {
    forall j | 0 <= j < |marks| ::
      && (marks[j] ==> night.list[j].remote.Some? && Rank(marks, j) < MinRetained)
      && (&& Settled(night) && night.list[j].remote.Some? && Rank(marks, j) < MinRetained
          && Answers(night.cfg, night.list[j].remote.value, night.objects0)
          ==> marks[j])
  }

  ghost predicate Fates(night: Pass, marks: seq<bool>, records: map<nat, Record>, objects: set<Location>, clean: bool)
    requires |marks| <= |night.list|
  {
    && (forall j | 0 <= j < |marks| ::
          RecordFate(night.list[j], Deletable(night.list[j], marks[j], night.cutoff, night.cfg), clean, night.cfg,
              records, objects))
    && (forall id | id in night.records0 && (forall j | 0 <= j < |marks| :: night.list[j].id != id) ::
          id in records && records[id] == night.records0[id])
    && records.Keys <= night.records0.Keys
  }

  ghost predicate Progress(night: Pass, marks: seq<bool>, records: map<nat, Record>, objects: set<Location>,
      clean: bool)
  {
    && |marks| <= |night.list| && OnlyTargets(night, marks, objects) && Floor(night, marks)
    && Fates(night, marks, records, objects, clean)
  }

  /** The record whose turn it is, and its copy if all is in place, have not been touched. */
  lemma StillThere(night: Pass, marks: seq<bool>, records: map<nat, Record>, objects: set<Location>, clean: bool)
    requires WfPass(night) && |marks| < |night.list| && Progress(night, marks, records, objects, clean)
    ensures
      var rec := night.list[|marks|];
      && rec.id in records && records[rec.id] == rec && rec.id in night.records0 && objects <= night.objects0
      && (forall j | 0 <= j < |marks| :: night.list[j].id != rec.id)
      && (Settled(night) && rec.remote.Some? && Answers(night.cfg, rec.remote.value, night.objects0) ==>
            Answers(night.cfg, rec.remote.value, objects))
  {
    hide RecordFate, Floor;
    var rec := night.list[|marks|];
    assert forall j | 0 <= j < |marks| ::
      night.list[j].id != rec.id && (night.list[j].remote.Some? ==> night.list[j].remote != rec.remote);
    if Settled(night) && rec.remote.Some? && Ours(night.cfg, rec.remote.value) {
      TargetIff(night.cfg, rec.remote.value);
      forall j | 0 <= j < |marks| && night.list[j].remote.Some? && Ours(night.cfg, night.list[j].remote.value)
        ensures Target(night.cfg, night.list[j].remote.value) != rec.remote.value
      {
        TargetIff(night.cfg, night.list[j].remote.value);
      }
    }
  }

  lemma OnlyTargetsTurn(night: Pass, marks: seq<bool>, objects: set<Location>, held: bool, objects': set<Location>)
    requires |marks| < |night.list| && OnlyTargets(night, marks, objects) && objects' <= objects
    requires forall l | l in objects && l !in objects' ::
      && Deletable(night.list[|marks|], held, night.cutoff, night.cfg)
      && Target(night.cfg, night.list[|marks|].remote.value) == l
    ensures OnlyTargets(night, marks + [held], objects')
  {
    var marks' := marks + [held];
    forall l | l in night.objects0 && l !in objects'
      ensures exists j ::
        && 0 <= j < |marks'| && Deletable(night.list[j], marks'[j], night.cutoff, night.cfg)
        && Target(night.cfg, night.list[j].remote.value) == l
    {
      if l in objects {
        assert marks'[|marks|] == held;
      } else {
        var j :| 0 <= j < |marks| && Deletable(night.list[j], marks[j], night.cutoff, night.cfg)
            && Target(night.cfg, night.list[j].remote.value) == l;
        assert marks'[j] == marks[j];
      }
    }
  }

  lemma FloorTurn(night: Pass, marks: seq<bool>, held: bool)
    requires |marks| < |night.list| && Floor(night, marks)
    requires held ==> night.list[|marks|].remote.Some? && Rank(marks, |marks|) < MinRetained
    requires
      var rec := night.list[|marks|];
      && Settled(night) && rec.remote.Some? && Rank(marks, |marks|) < MinRetained
      && Answers(night.cfg, rec.remote.value, night.objects0)
      ==> held
    ensures Floor(night, marks + [held])
  {
    RankTurn(marks, held);
    hide Rank, Settled, Answers;
    var marks' := marks + [held];
    forall j | 0 <= j < |marks'|
      ensures marks'[j] ==> night.list[j].remote.Some? && Rank(marks', j) < MinRetained
      ensures
        && Settled(night) && night.list[j].remote.Some? && Rank(marks', j) < MinRetained
        && Answers(night.cfg, night.list[j].remote.value, night.objects0)
        ==> marks'[j]
    {
      if j < |marks| { assert marks'[j] == marks[j]; }
    }
  }

  /** A later turn does not change what became of an earlier record. */
  lemma FateStays(rec: Record, other: Record, deletable: bool, theirs: bool, clean: bool, ok: bool, cfg: Offsite,
                  records: map<nat, Record>, objects: set<Location>, records': map<nat, Record>,
                  objects': set<Location>)
    requires RecordFate(rec, deletable, clean, cfg, records, objects) && rec.id != other.id
    requires TurnFrame(other, theirs, cfg, records, objects, records', objects')
    ensures RecordFate(rec, deletable, clean && ok, cfg, records', objects')
  {
    hide Target, Ours;
  }

  lemma FatesTurn(night: Pass, marks: seq<bool>, records: map<nat, Record>, objects: set<Location>, clean: bool,
                  held: bool, ok: bool, records': map<nat, Record>, objects': set<Location>)
    requires |marks| < |night.list| && Fates(night, marks, records, objects, clean)
    requires night.list[|marks|].id in night.records0
    requires forall j | 0 <= j < |marks| :: night.list[j].id != night.list[|marks|].id
    requires RecordFate(night.list[|marks|], Deletable(night.list[|marks|], held, night.cutoff, night.cfg), ok,
        night.cfg, records', objects')
    requires TurnFrame(night.list[|marks|], Deletable(night.list[|marks|], held, night.cutoff, night.cfg), night.cfg,
        records, objects, records', objects')
    ensures Fates(night, marks + [held], records', objects', clean && ok)
  {
    hide RecordFate, Deletable, Target, Ours;
    var i, rec, marks' := |marks|, night.list[|marks|], marks + [held];
    forall j | 0 <= j < |marks'|
      ensures RecordFate(night.list[j], Deletable(night.list[j], marks'[j], night.cutoff, night.cfg), clean && ok,
          night.cfg, records', objects')
    {
      if j < i {
        assert marks'[j] == marks[j];
        FateStays(night.list[j], rec, Deletable(night.list[j], marks[j], night.cutoff, night.cfg),
            Deletable(rec, held, night.cutoff, night.cfg),
                  clean, ok, night.cfg, records, objects, records', objects');
      } else {
        FateUnclean(rec, Deletable(rec, held, night.cutoff, night.cfg), clean, ok, night.cfg, records', objects');
      }
    }
    forall id | id in night.records0 && (forall j | 0 <= j < |marks'| :: night.list[j].id != id)
      ensures id in records' && records'[id] == night.records0[id]
    {
      assert id != rec.id;
    }
  }

  lemma FateUnclean(rec: Record, deletable: bool, clean: bool, ok: bool, cfg: Offsite, records: map<nat, Record>,
      objects: set<Location>)
    requires RecordFate(rec, deletable, ok, cfg, records, objects)
    ensures RecordFate(rec, deletable, clean && ok, cfg, records, objects)
  {
  }

  lemma ProgressTurn(night: Pass, marks: seq<bool>, records: map<nat, Record>, objects: set<Location>, clean: bool,
                     held: bool, ok: bool, records': map<nat, Record>, objects': set<Location>)
    requires WfPass(night) && |marks| < |night.list| && Progress(night, marks, records, objects, clean)
    requires
      var rec := night.list[|marks|];
      && (held ==> rec.remote.Some? && Rank(marks, |marks|) < MinRetained)
      && (rec.remote.Some? && Rank(marks, |marks|) < MinRetained && Answers(night.cfg, rec.remote.value, objects) ==>
            held)
      && RecordFate(rec, Deletable(rec, held, night.cutoff, night.cfg), ok, night.cfg, records', objects')
      && TurnFrame(rec, Deletable(rec, held, night.cutoff, night.cfg), night.cfg, records, objects, records', objects')
    ensures Progress(night, marks + [held], records', objects', clean && ok)
  {
    hide WfPass, OnlyTargets, Floor, Fates, RecordFate, Rank, Settled, Answers;
    StillThere(night, marks, records, objects, clean);
    OnlyTargetsTurn(night, marks, objects, held, objects');
    FloorTurn(night, marks, held);
    FatesTurn(night, marks, records, objects, clean, held, ok, records', objects');
  }

  /** Nothing was believed present offsite that is not there. */
  ghost predicate NoneUnproven(night: Pass, marks: seq<bool>)
    requires |marks| <= |night.list|
  {
    forall i | 0 <= i < |marks| && marks[i] ::
      night.list[i].remote.Some? && night.list[i].remote.value in night.objects0
  }

  lemma NoneUnprovenTurn(night: Pass, marks: seq<bool>, held: bool)
    requires |marks| < |night.list| && NoneUnproven(night, marks)
    requires held ==> night.list[|marks|].remote.Some? && night.list[|marks|].remote.value in night.objects0
    ensures NoneUnproven(night, marks + [held])
  {
  }

  lemma NightBegins(night: Pass)
    requires Catalogue(night.records0) && Listing(night.list, night.records0, night.files)
    ensures WfPass(night) && Progress(night, [], night.records0, night.objects0, true) && NoneUnproven(night, [])
  {
  }

  /** The whole pass; `marks` says which records hold the floor. */
  method RemoteCleanup(shelf: Shelf, list: seq<Record>, cutoff: int, cfg: Offsite)
      returns (ghost night: Pass, ghost marks: seq<bool>)
    requires Catalogue(shelf.records) && Listing(list, shelf.records, shelf.files)
    modifies shelf`objects, shelf`records, shelf`faults, shelf`unproven
    ensures night == Pass(list, cutoff, cfg, old(shelf.records), shelf.files, old(shelf.objects)) && |marks| == |list|
    ensures Progress(night, marks, shelf.records, shelf.objects, shelf.faults == old(shelf.faults))
    ensures shelf.faults >= old(shelf.faults) && shelf.unproven >= old(shelf.unproven)
    ensures shelf.unproven == old(shelf.unproven) ==> NoneUnproven(night, marks)
  {
    hide WfPass, Progress, NoneUnproven, RecordFate, TurnFrame, Catalogue, Listing, Deletable, Answers;
    night, marks := Pass(list, cutoff, cfg, shelf.records, shelf.files, shelf.objects), [];
    NightBegins(night);
    var kept := 0;
    for i := 0 to |list|
      invariant |marks| == i && kept == Capped(Rank(marks, i))
      invariant shelf.faults >= old(shelf.faults) && shelf.unproven >= old(shelf.unproven)
      invariant Progress(night, marks, shelf.records, shelf.objects, shelf.faults == old(shelf.faults))
      invariant shelf.unproven == old(shelf.unproven) ==> NoneUnproven(night, marks)
    {
      ghost var records1, objects1, faults1 := shelf.records, shelf.objects, shelf.faults;
      StillThere(night, marks, records1, objects1, faults1 == old(shelf.faults));
      var held;
      kept, held := RetainRemote(shelf, list[i], kept, cutoff, cfg, Rank(marks, i));
      ProgressTurn(night, marks, records1, objects1, faults1 == old(shelf.faults), held, shelf.faults == faults1,
                   shelf.records, shelf.objects);
      if shelf.unproven == old(shelf.unproven) { NoneUnprovenTurn(night, marks, held); }
      RankTurn(marks, held);
      marks := marks + [held];
    }
  }

  // ---- What offsite retention guarantees ----------------------------------------------

  /** The pass has dealt with every listed record. */
  ghost predicate Outcome(night: Pass, marks: seq<bool>, records: map<nat, Record>, objects: set<Location>, clean: bool)
  {
    WfPass(night) && |marks| == |night.list| && Progress(night, marks, records, objects, clean)
  }

  /**
    If every copy in the bucket lies beneath the configured path, an object goes only as the
    copy of an old record behind two newer ones that hold the floor.
  */
  lemma OnlyOldGoes(night: Pass, marks: seq<bool>, records: map<nat, Record>, objects: set<Location>, clean: bool,
      l: Location)
    returns (i: nat)
    requires Outcome(night, marks, records, objects, clean) && Settled(night) && l in night.objects0 && l !in objects
    ensures i < |night.list| && night.list[i].remote == Some(l) && Ours(night.cfg, l)
    ensures night.list[i].time < night.cutoff
    ensures !marks[i] && Rank(marks, i) >= 2
  {
    i :| 0 <= i < |marks| && Deletable(night.list[i], marks[i], night.cutoff, night.cfg)
        && Target(night.cfg, night.list[i].remote.value) == l;
    TargetIff(night.cfg, night.list[i].remote.value);
  }

  /** The copies that hold the floor are never deleted, whatever their age. */
  lemma FloorSurvives(night: Pass, marks: seq<bool>, records: map<nat, Record>, objects: set<Location>, clean: bool,
      i: nat)
    requires Outcome(night, marks, records, objects, clean) && Settled(night)
    requires i < |night.list| && marks[i] && night.list[i].remote.Some? && night.list[i].remote.value in night.objects0
    ensures night.list[i].remote.value in objects
  {
    hide WfPass, Progress, Settled, Ours;
    var l := night.list[i].remote.value;
    if l !in objects {
      var j := OnlyOldGoes(night, marks, records, objects, clean, l);
      OwnCopies(night, i, j);
    }
  }

  /** On a night without failures the copies in our bucket that are left are the young and the two newest. */
  lemma LeftIff(night: Pass, marks: seq<bool>, records: map<nat, Record>, objects: set<Location>, i: nat)
    requires Outcome(night, marks, records, objects, true) && Settled(night)
    requires i < |night.list| && night.list[i].remote.Some? && Ours(night.cfg, night.list[i].remote.value)
    requires night.list[i].remote.value in night.objects0
    ensures night.list[i].remote.value in objects <==> night.list[i].time >= night.cutoff || Rank(marks, i) < 2
  {
    var l := night.list[i].remote.value;
    TargetIff(night.cfg, l);
    if l !in objects {
      var j := OnlyOldGoes(night, marks, records, objects, true, l);
      OwnCopies(night, i, j);
    } else {
      assert RecordFate(night.list[i], Deletable(night.list[i], marks[i], night.cutoff, night.cfg), true, night.cfg,
          records, objects);
    }
  }

  /** No two listed records name the same object. */
  lemma OwnCopies(night: Pass, i: nat, j: nat)
    requires WfPass(night) && i < |night.list| && j < |night.list|
    requires night.list[i].remote.Some? && night.list[i].remote == night.list[j].remote
    ensures i == j
  {
  }

  /** Of any set of objects, a night deletes none or leaves at least two. */
  lemma FloorHolds(night: Pass, marks: seq<bool>, records: map<nat, Record>, objects: set<Location>, clean: bool,
      kept: set<Location>)
    requires Outcome(night, marks, records, objects, clean) && Settled(night) && NoneUnproven(night, marks)
    requires forall i | 0 <= i < |night.list| && night.list[i].remote.Some? :: night.list[i].remote.value in kept
    ensures |objects * kept| >= Min(2, |night.objects0 * kept|)
  {
    if l :| l in night.objects0 * kept && l !in objects {
      var i := OnlyOldGoes(night, marks, records, objects, clean, l);
      var a, b := FirstTwo(marks, i);
      FloorSurvives(night, marks, records, objects, clean, a);
      FloorSurvives(night, marks, records, objects, clean, b);
      assert night.list[a].id != night.list[b].id;
      TwoIn(objects * kept, night.list[a].remote.value, night.list[b].remote.value);
    } else {
      SubsetSize(night.objects0 * kept, objects * kept);
    }
  }

  /** No record gains an offsite copy, and the catalogue stays one. */
  lemma CatalogueKept(night: Pass, marks: seq<bool>, records: map<nat, Record>, objects: set<Location>, clean: bool)
    requires Outcome(night, marks, records, objects, clean)
    ensures Catalogue(records)
    ensures forall id | id in records && records[id].remote.Some? ::
      id in night.records0 && records[id].remote == night.records0[id].remote
  {
    hide OnlyTargets, Floor, Target, Ours, Catalogue, Deletable;
    forall id | id in records ensures id in night.records0 && Narrowed(night.records0[id], records[id]) {
      if j :| 0 <= j < |marks| && night.list[j].id == id {
        assert RecordFate(night.list[j], Deletable(night.list[j], marks[j], night.cutoff, night.cfg), clean,
            night.cfg, records, objects);
      }
    }
    CatalogueNarrows(night.records0, records);
  }

  ghost predicate RemotesAmong(records: map<nat, Record>, cfg: Offsite, kept: set<Location>)
  {
    forall id | id in records && records[id].remote.Some? ::
      && records[id].remote.value in kept
      && (Ours(cfg, records[id].remote.value) ==> InPlace(cfg, records[id].remote.value))
  }

  /** The catalogue between two nights without an upload: rows and local copies may go. */
  predicate NoUpload(records: map<nat, Record>, records': map<nat, Record>)
  {
    Catalogue(records') && forall id | id in records' :: id in records && records'[id].remote == records[id].remote
  }

  method OneNight(shelf: Shelf, list: seq<Record>, cutoff: int, cfg: Offsite, ghost kept: set<Location>)
    requires Catalogue(shelf.records) && Listing(list, shelf.records, shelf.files)
    requires RemotesAmong(shelf.records, cfg, kept)
    modifies shelf`objects, shelf`records, shelf`faults, shelf`unproven
    ensures Catalogue(shelf.records) && RemotesAmong(shelf.records, cfg, kept) && shelf.unproven >= old(shelf.unproven)
    ensures shelf.unproven == old(shelf.unproven) ==>
      |shelf.objects * kept| >= Min(2, |old(shelf.objects) * kept|)
  {
    ghost var night, marks := RemoteCleanup(shelf, list, cutoff, cfg);
    CatalogueKept(night, marks, shelf.records, shelf.objects, shelf.faults == old(shelf.faults));
    if shelf.unproven == old(shelf.unproven) {
      hide Progress;
      FloorHolds(night, marks, shelf.records, shelf.objects, shelf.faults == old(shelf.faults), kept);
    }
  }

  /**
    Any number of nights without an upload, each with any listing of what is left, any cutoff
    and any faults, leaves at least two of the offsite copies, or all, as long as those in
    the bucket lie beneath the configured path and none was believed in that is not there.
  */
  method NightsWithoutUpload(shelf: Shelf, nights: nat, cfg: Offsite, ghost kept: set<Location>)
    requires Catalogue(shelf.records) && RemotesAmong(shelf.records, cfg, kept)
    modifies shelf
    ensures shelf.unproven == old(shelf.unproven) ==>
      |shelf.objects * kept| >= Min(2, |old(shelf.objects) * kept|)
  {
    for night := 0 to nights
      invariant Catalogue(shelf.records) && RemotesAmong(shelf.records, cfg, kept)
      invariant shelf.unproven >= old(shelf.unproven)
      invariant shelf.unproven == old(shelf.unproven) ==>
        |shelf.objects * kept| >= Min(MinRetained, |old(shelf.objects) * kept|)
    {
      var records: map<nat, Record> := *;
      var list: seq<Record> := *;
      var cutoff := *;
      if NoUpload(shelf.records, records) && Listing(list, records, shelf.files) {
        shelf.records := records;
        OneNight(shelf, list, cutoff, cfg, kept);
      }
    }
  }

  // ---- Where it fails -----------------------------------------------------------------

  /**
    Two copies recorded in another bucket, which are not there any more, hold the floor, and
    the one real copy goes.
  */
  lemma UnprovenFillTheFloor() returns (night: Pass, marks: seq<bool>, records: map<nat, Record>)
    ensures Outcome(night, marks, records, {}, true) && Settled(night) && night.objects0 == {Object("B", "c")}
  {
    var a, b, c := Record(0, 3, None, Some(Object("A", "a"))), Record(1, 2, None, Some(Object("A", "b"))),
        Record(2, 1, None, Some(Object("B", "c")));
    night := Pass([a, b, c], 10, Offsite("B", ""), map[0 := a, 1 := b, 2 := c], {}, {Object("B", "c")});
    marks, records := [true, true, false], map[0 := a, 1 := b];
    assert Rank(marks, 0) == 0 && Rank(marks, 1) == 1 && Rank(marks, 2) == 2;
    TargetIff(night.cfg, Object("B", "c"));
    hide Rank, Target;
    assert Deletable(night.list[2], marks[2], 10, night.cfg);
  }

  /**
    When a record is forgotten, its object is gone exactly if its key lies beneath the
    configured path, unless the request for another record happened to reach it.
  */
  lemma ForgottenIff(night: Pass, marks: seq<bool>, records: map<nat, Record>, objects: set<Location>, clean: bool,
      i: nat)
    requires Outcome(night, marks, records, objects, clean) && i < |night.list|
    requires !(night.list[i].id in records && records[night.list[i].id] == night.list[i])
    requires night.list[i].remote.Some? && night.list[i].remote.value in night.objects0
    requires forall j | 0 <= j < |night.list| && j != i && night.list[j].remote.Some?
        && Ours(night.cfg, night.list[j].remote.value) ::
      Target(night.cfg, night.list[j].remote.value) != night.list[i].remote.value
    ensures night.list[i].remote.value !in objects <==> InPlace(night.cfg, night.list[i].remote.value)
  {
    var l := night.list[i].remote.value;
    assert RecordFate(night.list[i], Deletable(night.list[i], marks[i], night.cutoff, night.cfg), clean, night.cfg,
        records, objects);
    TargetIff(night.cfg, l);
    if l !in objects {
      var j :| 0 <= j < |marks| && Deletable(night.list[j], marks[j], night.cutoff, night.cfg)
          && Target(night.cfg, night.list[j].remote.value) == l;
    }
  }

  /**
    After the configured path has changed, the only copy is looked for elsewhere, found
    missing, and forgotten; the object stays.
  */
  lemma MovedPathForgets() returns (night: Pass, marks: seq<bool>)
    ensures Outcome(night, marks, map[], night.objects0, true) && |night.list| == 1
    ensures night.objects0 == {Object("B", "old/k")} && night.list[0].remote == Some(Object("B", "old/k"))
    ensures night.cfg == Offsite("B", "new/")
  {
    var a := Record(0, 1, None, Some(Object("B", "old/k")));
    night := Pass([a], 10, Offsite("B", "new/"), map[0 := a], {}, {Object("B", "old/k")});
    marks := [false];
    assert "new/"[0] != "old/k"[0];
    assert |"new/" + "old/k"| == 9;
    assert Target(night.cfg, Object("B", "old/k")) != Object("B", "old/k");
    assert Deletable(night.list[0], marks[0], 10, night.cfg);
    assert Rank(marks, 0) == 0;
    assert !InPlace(night.cfg, night.list[0].remote.value);
  }
}
