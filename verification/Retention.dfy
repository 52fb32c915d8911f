/**
  Age-based retention of one instance's local archives (runLocalCleanup in
  internal/operations/cron_task.go).
*/
module Retention {
  import opened Basics
  import opened BackupShelf

  /** One night's pass: its inputs, and the shelf as it found it. */
  datatype Pass = Pass(list: seq<Record>, cutoff: int, offsite: bool, records0: map<nat, Record>, files0: set<Path>)

  ghost predicate WfPass(night: Pass)
  {
    Catalogue(night.records0) && Listing(night.list, night.records0, night.files0)
  }

  /** What must hold of a backup, believed present or not, for its local copy to go. */
  predicate Expendable(rec: Record, told: bool, rank: nat, cutoff: int, offsite: bool)
  {
    && rec.local.Some? && rec.time < cutoff
    && (told ==> rank >= MinRetained && (offsite ==> rec.remote.Some?))
  }

  /** The local copy of this record is out of the catalogue: the row, or just its location. */
  ghost predicate LocalForgotten(rec: Record, records: map<nat, Record>)
  {
    if rec.remote.None? then rec.id !in records else rec.id in records && records[rec.id] == rec.(local := None)
  }

  /** A file that is there is never believed missing, and only files are believed in. */
  ghost predicate FailSafe(night: Pass, told: seq<bool>)
    requires |told| <= |night.list|
  {
    forall i | 0 <= i < |told| ::
      && (night.list[i].local.None? ==> !told[i])
      && (night.list[i].local.Some? && night.list[i].local.value in night.files0 ==> told[i])
  }

  /** `picked` are those of the first `|told|` listed records that were up for removal. */
  ghost predicate Picks(night: Pass, told: seq<bool>, picked: set<nat>)
    requires |told| <= |night.list|
  {
    && (forall j | 0 <= j < |told| ::
          night.list[j].id in picked <==>
            Expendable(night.list[j], told[j], Rank(told, j), night.cutoff, night.offsite))
    && (forall id | id in picked :: exists j :: 0 <= j < |told| && night.list[j].id == id)
  }

  /**
    Exactly the local copies of the records in `picked` were up for removal: file first,
    catalogue second, each step possibly failing unless `clean`.
  */
  ghost predicate Swept(night: Pass, records: map<nat, Record>, files: set<Path>, picked: set<nat>, clean: bool)
  {
    && records.Keys <= night.records0.Keys && files <= night.files0
    && (forall p | p in night.files0 && p !in files ::
          exists id :: id in picked && id in night.records0 && night.records0[id].local == Some(p))
    && (forall id | id in night.records0 ::
          var rec := night.records0[id];
          || (id in records && records[id] == rec && (clean ==> id !in picked))
          || (id in picked && rec.local.Some? && rec.local.value !in files && LocalForgotten(rec, records)))
  }

  /** What one turn of the loop does to the shelf. */
  ghost predicate Turn(rec: Record, swept: bool, ok: bool, records: map<nat, Record>, files: set<Path>,
      records': map<nat, Record>, files': set<Path>)
  {
    if !swept then
      ok && records' == records && files' == files
    else
      && rec.local.Some?
      && (files' == files - {rec.local.value} || (files' == files && records' == records && !ok))
      && (records' == records || records' == WithoutLocal(records, rec))
      && (ok ==> records' == WithoutLocal(records, rec))
  }

  lemma SweptTurn(night: Pass, records: map<nat, Record>, files: set<Path>, picked: set<nat>, clean: bool,
                  rec: Record, records': map<nat, Record>, files': set<Path>, ok: bool)
    requires WfPass(night) && Swept(night, records, files, picked, clean)
    requires rec.id in night.records0 && night.records0[rec.id] == rec && rec.id !in picked
    requires Turn(rec, true, ok, records, files, records', files')
    ensures Swept(night, records', files', picked + {rec.id}, clean && ok)
  {
    forall p | p in night.files0 && p !in files'
      ensures exists id :: id in picked + {rec.id} && id in night.records0 && night.records0[id].local == Some(p)
    {
      if p in files {
        assert night.records0[rec.id].local == Some(p);
      } else {
        var id :| id in picked && id in night.records0 && night.records0[id].local == Some(p);
        assert id in picked + {rec.id};
      }
    }
  }

  lemma SweptKeepsCatalogue(night: Pass, records: map<nat, Record>, files: set<Path>, picked: set<nat>, clean: bool)
    requires Catalogue(night.records0) && Swept(night, records, files, picked, clean)
    ensures Catalogue(records)
  {
    assert forall id | id in records :: id in night.records0 && Narrowed(night.records0[id], records[id]);
    CatalogueNarrows(night.records0, records);
  }

  lemma PicksTurn(night: Pass, told: seq<bool>, picked: set<nat>, present: bool, swept: bool)
    requires |told| < |night.list| && Picks(night, told, picked)
    requires forall j | 0 <= j < |told| :: night.list[j].id != night.list[|told|].id
    requires swept <==> Expendable(night.list[|told|], present, Rank(told, |told|), night.cutoff, night.offsite)
    ensures Picks(night, told + [present], if swept then picked + {night.list[|told|].id} else picked)
    ensures night.list[|told|].id !in picked
  {
    RankTurn(told, present);
    hide Rank, Expendable;
    var told' := told + [present];
    var picked' := if swept then picked + {night.list[|told|].id} else picked;
    forall j | 0 <= j < |told'|
      ensures night.list[j].id in picked' <==>
        Expendable(night.list[j], told'[j], Rank(told', j), night.cutoff, night.offsite)
    {
      if j < |told| { assert told'[j] == told[j]; }
    }
    forall id | id in picked' ensures exists j :: 0 <= j < |told'| && night.list[j].id == id {
      if id in picked {
        var j :| 0 <= j < |told| && night.list[j].id == id;
      } else {
        assert night.list[|told|].id == id;
      }
    }
  }

  /** The loop has dealt with the first `|told|` records. */
  ghost predicate Progress(night: Pass, told: seq<bool>, picked: set<nat>, records: map<nat, Record>, files: set<Path>,
      clean: bool)
  {
    && |told| <= |night.list| && FailSafe(night, told)
    && Picks(night, told, picked)
    && Swept(night, records, files, picked, clean)
  }

  /** The record whose turn it is has not been touched. */
  lemma StillThere(night: Pass, told: seq<bool>, picked: set<nat>, records: map<nat, Record>, files: set<Path>,
      clean: bool)
    requires WfPass(night) && |told| < |night.list| && Progress(night, told, picked, records, files, clean)
    ensures
      var rec := night.list[|told|];
      && rec.id in records && records[rec.id] == rec && rec.id in night.records0 && night.records0[rec.id] == rec
      && files <= night.files0
      && (rec.local.Some? && rec.local.value in night.files0 ==> rec.local.value in files)
      && (forall j | 0 <= j < |told| :: night.list[j].id != rec.id)
  {
    var rec := night.list[|told|];
    assert rec.id !in picked;
  }

  lemma ProgressTurn(night: Pass, told: seq<bool>, picked: set<nat>, records: map<nat, Record>, files: set<Path>,
      clean: bool, present: bool, swept: bool, ok: bool, records': map<nat, Record>, files': set<Path>)
    returns (picked': set<nat>)
    requires WfPass(night) && |told| < |night.list| && Progress(night, told, picked, records, files, clean)
    requires
      var rec := night.list[|told|];
      && (rec.local.None? ==> !present) && (rec.local.Some? && rec.local.value in files ==> present)
      && (swept <==> Expendable(rec, present, Rank(told, |told|), night.cutoff, night.offsite))
      && Turn(rec, swept, ok, records, files, records', files')
    ensures Progress(night, told + [present], picked', records', files', clean && ok)
    ensures Rank(told + [present], |told| + 1) == Rank(told, |told|) + if present then 1 else 0
  {
    StillThere(night, told, picked, records, files, clean);
    hide Picks, Swept, FailSafe, Expendable, Rank, Turn, WfPass;
    RankTurn(told, present);
    PicksTurn(night, told, picked, present, swept);
    FailSafeTurn(night, told, present);
    var rec := night.list[|told|];
    picked' := if swept then picked + {rec.id} else picked;
    if swept {
      SweptTurn(night, records, files, picked, clean, rec, records', files', ok);
    } else {
      assert records' == records && files' == files && ok by { NoTurn(rec, ok, records, files, records', files'); }
    }
  }

  lemma FailSafeTurn(night: Pass, told: seq<bool>, present: bool)
    requires |told| < |night.list| && FailSafe(night, told)
    requires
      var rec := night.list[|told|];
      (rec.local.None? ==> !present) && (rec.local.Some? && rec.local.value in night.files0 ==> present)
    ensures FailSafe(night, told + [present])
  {
  }

  lemma NoTurn(rec: Record, ok: bool, records: map<nat, Record>, files: set<Path>, records': map<nat, Record>,
      files': set<Path>)
    requires Turn(rec, false, ok, records, files, records', files')
    ensures ok && records' == records && files' == files
  {
  }

  /** Nothing missing was believed present: no stat failed on a missing file. */
  ghost predicate NoGhosts(night: Pass, told: seq<bool>)
    requires |told| <= |night.list|
  {
    forall i | 0 <= i < |told| && told[i] :: night.list[i].local.Some? && night.list[i].local.value in night.files0
  }

  lemma NoGhostsTurn(night: Pass, told: seq<bool>, present: bool)
    requires |told| < |night.list| && NoGhosts(night, told)
    requires present ==> night.list[|told|].local.Some? && night.list[|told|].local.value in night.files0
    ensures NoGhosts(night, told + [present])
  {
  }

  /** One turn of the loop; `rank` newer copies were believed present. */
  method RetainLocal(shelf: Shelf, rec: Record, kept: nat, cutoff: int, offsite: bool, ghost rank: nat)
    returns (kept': nat, present: bool, swept: bool, ok: bool)
    requires rec.id in shelf.records && shelf.records[rec.id] == rec && kept == Capped(rank)
    modifies shelf`files, shelf`records, shelf`faults, shelf`ghosts
    ensures (rec.local.None? ==> !present) && (rec.local.Some? && rec.local.value in old(shelf.files) ==> present)
    ensures kept' == Capped(rank + if present then 1 else 0)
    ensures shelf.ghosts >= old(shelf.ghosts)
    ensures present && shelf.ghosts == old(shelf.ghosts) ==> rec.local.Some? && rec.local.value in old(shelf.files)
    ensures swept <==> Expendable(rec, present, rank, cutoff, offsite)
    ensures Turn(rec, swept, ok, old(shelf.records), old(shelf.files), shelf.records, shelf.files)
    ensures shelf.faults == old(shelf.faults) + if ok then 0 else 1
  {
    kept', present, swept, ok := kept, false, false, true;
    if rec.local.None? { return; }
    present := shelf.LocalArchivePresent(rec.local.value);
    if present && kept < MinRetained {
      kept' := kept + 1;
      return;
    }
    if rec.time >= cutoff { return; }
    if present && offsite && rec.remote.None? { return; }
    swept := true;
    ok := shelf.RemoveLocalCopy(rec);
  }

  /** The loop has dealt with every listed record. */
  ghost predicate Outcome(night: Pass, told: seq<bool>, picked: set<nat>, records: map<nat, Record>, files: set<Path>,
      clean: bool)
  {
    WfPass(night) && |told| == |night.list| && Progress(night, told, picked, records, files, clean)
  }

  /**
    `list` is what the catalogue query returned; `offsite` is true unless the settings
    could be read and there were none.  `told` is what was believed about each local file.
  */
  method LocalCleanup(shelf: Shelf, list: seq<Record>, cutoff: int, offsite: bool)
    returns (ghost night: Pass, ghost told: seq<bool>, ghost picked: set<nat>)
    requires Catalogue(shelf.records) && Listing(list, shelf.records, shelf.files)
    modifies shelf`files, shelf`records, shelf`faults, shelf`ghosts
    ensures night == Pass(list, cutoff, offsite, old(shelf.records), old(shelf.files)) && |told| == |list|
    ensures Outcome(night, told, picked, shelf.records, shelf.files, shelf.faults == old(shelf.faults))
    ensures Catalogue(shelf.records) && shelf.faults >= old(shelf.faults) && shelf.ghosts >= old(shelf.ghosts)
    ensures shelf.ghosts == old(shelf.ghosts) ==> NoGhosts(night, told)
  {
    hide Progress, WfPass, NoGhosts, Expendable, Turn, Catalogue, Listing;
    night, told, picked := Pass(list, cutoff, offsite, shelf.records, shelf.files), [], {};
    NightBegins(night);
    var kept := 0;
    for i := 0 to |list|
      invariant |told| == i && kept == Capped(Rank(told, i)) && shelf.faults >= old(shelf.faults)
      invariant Progress(night, told, picked, shelf.records, shelf.files, shelf.faults == old(shelf.faults))
      invariant shelf.ghosts >= old(shelf.ghosts) && (shelf.ghosts == old(shelf.ghosts) ==> NoGhosts(night, told))
    {
      ghost var records1, files1, clean := shelf.records, shelf.files, shelf.faults == old(shelf.faults);
      StillThere(night, told, picked, records1, files1, clean);
      var present, swept, ok;
      kept, present, swept, ok := RetainLocal(shelf, list[i], kept, cutoff, offsite, Rank(told, i));
      picked := ProgressTurn(night, told, picked, records1, files1, clean, present, swept, ok, shelf.records,
                             shelf.files);
      if shelf.ghosts == old(shelf.ghosts) { NoGhostsTurn(night, told, present); }
      told := told + [present];
    }
    CatalogueKept(night, told, picked, shelf.records, shelf.files, shelf.faults == old(shelf.faults));
  }

  lemma NightBegins(night: Pass)
    requires Catalogue(night.records0) && Listing(night.list, night.records0, night.files0)
    ensures WfPass(night) && Progress(night, [], {}, night.records0, night.files0, true) && NoGhosts(night, [])
  {
  }

  /** The catalogue stays one, and no record gains a local copy. */
  lemma CatalogueKept(night: Pass, told: seq<bool>, picked: set<nat>, records: map<nat, Record>, files: set<Path>,
      clean: bool)
    requires WfPass(night) && Progress(night, told, picked, records, files, clean)
    ensures Catalogue(records)
    ensures forall id | id in records && records[id].local.Some? ::
      id in night.records0 && records[id].local == night.records0[id].local
  {
    SweptKeepsCatalogue(night, records, files, picked, clean);
  }

  // ---- What local retention guarantees ------------------------------------------------

  /** A local copy that was there goes only if old, outside the floor, and never as the only copy. */
  lemma OnlyExpendableGoes(night: Pass, told: seq<bool>, picked: set<nat>, records: map<nat, Record>, files: set<Path>,
      clean: bool, p: Path)
    returns (i: nat)
    requires Outcome(night, told, picked, records, files, clean) && p in night.files0 && p !in files
    ensures i < |night.list| && night.list[i].local == Some(p) && night.list[i].time < night.cutoff
    ensures Rank(told, i) >= 2
    ensures !night.offsite || night.list[i].remote.Some?
  {
    var id :| id in picked && id in night.records0 && night.records0[id].local == Some(p);
    i :| 0 <= i < |told| && night.list[i].id == id;
  }

  /** The newest copies believed present are never touched, whatever their age. */
  lemma FloorSurvives(night: Pass, told: seq<bool>, picked: set<nat>, records: map<nat, Record>, files: set<Path>,
      clean: bool, i: nat)
    requires Outcome(night, told, picked, records, files, clean)
    requires i < |night.list| && night.list[i].local.Some? && night.list[i].local.value in night.files0
    requires Rank(told, i) < 2
    ensures night.list[i].local.value in files
  {
    var p := night.list[i].local.value;
    if p !in files {
      var j := OnlyExpendableGoes(night, told, picked, records, files, clean, p);
    }
  }

  /** On a night without failures the copies that are left are the young, the two newest, and the only ones. */
  lemma LeftIff(night: Pass, told: seq<bool>, picked: set<nat>, records: map<nat, Record>, files: set<Path>, i: nat)
    requires Outcome(night, told, picked, records, files, true)
    requires i < |night.list| && night.list[i].local.Some? && night.list[i].local.value in night.files0
    ensures night.list[i].local.value in files <==>
      night.list[i].time >= night.cutoff || Rank(told, i) < 2 || (night.offsite && night.list[i].remote.None?)
  {
    var p := night.list[i].local.value;
    if p !in files {
      var j := OnlyExpendableGoes(night, told, picked, records, files, true, p);
      assert night.list[i].id == night.list[j].id;
    }
  }

  /** Of any set of files, a night removes none or leaves at least two. */
  lemma FloorHolds(night: Pass, told: seq<bool>, picked: set<nat>, records: map<nat, Record>, files: set<Path>,
      clean: bool, kept: set<Path>)
    requires Outcome(night, told, picked, records, files, clean) && NoGhosts(night, told)
    requires forall i | 0 <= i < |night.list| && night.list[i].local.Some? :: night.list[i].local.value in kept
    ensures |files * kept| >= Min(2, |night.files0 * kept|)
  {
    if p :| p in night.files0 * kept && p !in files {
      var i := OnlyExpendableGoes(night, told, picked, records, files, clean, p);
      var a, b := FirstTwo(told, i);
      FloorSurvives(night, told, picked, records, files, clean, a);
      FloorSurvives(night, told, picked, records, files, clean, b);
      assert night.list[a].local != night.list[b].local;
      TwoIn(files * kept, night.list[a].local.value, night.list[b].local.value);
    } else {
      SubsetSize(night.files0 * kept, files * kept);
    }
  }

  /** The catalogue between two nights without a capture: rows may go, uploads may land. */
  predicate NoCapture(records: map<nat, Record>, records': map<nat, Record>)
  {
    Catalogue(records') && forall id | id in records' :: id in records && records'[id].local == records[id].local
  }

  ghost predicate LocalsAmong(records: map<nat, Record>, local: set<Path>)
  {
    forall id | id in records && records[id].local.Some? :: records[id].local.value in local
  }

  method OneNight(shelf: Shelf, list: seq<Record>, cutoff: int, offsite: bool, ghost local: set<Path>)
    requires Catalogue(shelf.records) && Listing(list, shelf.records, shelf.files) && LocalsAmong(shelf.records, local)
    modifies shelf`files, shelf`records, shelf`faults, shelf`ghosts
    ensures Catalogue(shelf.records) && LocalsAmong(shelf.records, local) && shelf.ghosts >= old(shelf.ghosts)
    ensures shelf.ghosts == old(shelf.ghosts) ==> |shelf.files * local| >= Min(2, |old(shelf.files) * local|)
  {
    ghost var night, told, picked := LocalCleanup(shelf, list, cutoff, offsite);
    CatalogueKept(night, told, picked, shelf.records, shelf.files, shelf.faults == old(shelf.faults));
    if shelf.ghosts == old(shelf.ghosts) {
      FloorHolds(night, told, picked, shelf.records, shelf.files, shelf.faults == old(shelf.faults), local);
    }
  }

  /**
    Any number of nights without a capture, each with any listing of what is left, any
    cutoff, any offsite setting and any removal faults, leaves at least two of the local
    archives, or all.
  */
  method NightsWithoutCapture(shelf: Shelf, nights: nat, ghost local: set<Path>)
    requires Catalogue(shelf.records) && LocalsAmong(shelf.records, local)
    modifies shelf
    ensures shelf.ghosts == old(shelf.ghosts) ==> |shelf.files * local| >= Min(2, |old(shelf.files) * local|)
  {
    for night := 0 to nights
      invariant Catalogue(shelf.records) && LocalsAmong(shelf.records, local) && shelf.ghosts >= old(shelf.ghosts)
      invariant shelf.ghosts == old(shelf.ghosts) ==>
        |shelf.files * local| >= Min(MinRetained, |old(shelf.files) * local|)
    {
      var records: map<nat, Record> := *;
      var list: seq<Record> := *;
      var cutoff, offsite := *, *;
      if NoCapture(shelf.records, records) && Listing(list, records, shelf.files) {
        shelf.records := records;
        OneNight(shelf, list, cutoff, offsite, local);
      }
    }
  }

  /**
    Two missing files that cannot be stat'ed take both places, and the one real local archive
    goes.  The listing has dropped local-only records whose file it could not see, so these
    two have an offsite copy.
  */
  lemma GhostsTakeTheFloor() returns (night: Pass, told: seq<bool>, picked: set<nat>, records: map<nat, Record>)
    ensures Outcome(night, told, picked, records, {}, true) && night.files0 == {"c"} && !night.offsite
  {
    var a := Record(0, 3, Some("a"), Some(Object("B", "a")));
    var b := Record(1, 2, Some("b"), Some(Object("B", "b")));
    var c := Record(2, 1, Some("c"), None);
    night := Pass([a, b, c], 10, false, map[0 := a, 1 := b, 2 := c], {"c"});
    told, picked, records := [true, true, true], {2}, map[0 := a, 1 := b];
    assert Rank(told, 0) == 0 && Rank(told, 1) == 1 && Rank(told, 2) == 2;
    assert night.list[2].id == 2 && night.records0[2].local == Some("c");
  }
}
