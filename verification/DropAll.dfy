/** The bulk sweep over every backup record (internal/operations/backup_drop_all.go). */
module DropAll {
  import opened Basics
  import opened BackupShelf

  datatype Result = Result(
    total: nat, dropped: nat, kept: nat,
    errors: seq<nat>,                 // the record each error is about
    refsDropped: nat)                 // remote references given up with offsite unconfigured

  /** A fault-free sweep cannot get rid of this record. */
  predicate Stuck(rec: Record, offsite: Option<Offsite>)
  {
    offsite.Some? && rec.remote.Some? && !Ours(offsite.value, rec.remote.value)
  }

  /** A delete request for the offsite copy of this record goes to this object. */
  predicate Addresses(rec: Record, offsite: Option<Offsite>, l: Location)
  {
    offsite.Some? && rec.remote.Some? && Ours(offsite.value, rec.remote.value)
        && Target(offsite.value, rec.remote.value) == l
  }

  /** What became of one record: gone once every copy was dealt with, or kept and still naming what was not. */
  ghost predicate Fate(rec: Record, offsite: Option<Offsite>, clean: bool, records: map<nat, Record>, files: set<Path>,
      objects: set<Location>)
  {
    && (rec.id !in records ==>
          && (rec.local.Some? ==> rec.local.value !in files)
          && (rec.remote.Some? && offsite.Some? ==>
                Ours(offsite.value, rec.remote.value) && Target(offsite.value, rec.remote.value) !in objects))
    && (rec.id in records ==>
          || records[rec.id] == rec
          || (rec.remote.Some? && rec.local.Some? && rec.local.value !in files
              && records[rec.id] == rec.(local := None)))
    // Without faults a record is kept exactly if its address is not ours, and says that its file is gone.
    && (clean ==> (rec.id in records <==> Stuck(rec, offsite)))
    && (clean && rec.id in records ==> records[rec.id] == rec.(local := None))
  }

  method DropOne(shelf: Shelf, rec: Record, offsite: Option<Offsite>) returns (gone: bool, refs: nat)
    requires rec.id in shelf.records && shelf.records[rec.id] == rec
    modifies shelf
    ensures Fate(rec, offsite, shelf.faults == old(shelf.faults), shelf.records, shelf.files, shelf.objects)
    ensures gone <==> rec.id !in shelf.records
    ensures refs <= 1 && (gone && offsite.None? && rec.remote.Some? ==> refs == 1) && (offsite.Some? ==> refs == 0)
    ensures shelf.faults >= old(shelf.faults) && shelf.files <= old(shelf.files) && shelf.objects <= old(shelf.objects)
    ensures forall l | l in old(shelf.objects) && l !in shelf.objects :: Addresses(rec, offsite, l)
    ensures shelf.records - {rec.id} == old(shelf.records) - {rec.id} && shelf.records.Keys <= old(shelf.records).Keys
  {
    gone, refs := false, 0;
    if rec.local.Some? {
      var removable := *;
      if !removable {
        shelf.faults := shelf.faults + 1;
        return;
      }
      shelf.files := shelf.files - {rec.local.value};    // or it was missing already
    }
    if rec.remote.Some? {
      if offsite.None? {
        refs := 1;
      } else {
        var deleted := false;
        if Ours(offsite.value, rec.remote.value) {
          deleted := shelf.DeleteObject(Target(offsite.value, rec.remote.value));
        }
        if !deleted {
          if rec.local.Some? {
            var cleared := *;              // a failure here is only logged
            if cleared {
              shelf.records := shelf.records[rec.id := rec.(local := None)];
            } else {
              shelf.faults := shelf.faults + 1;
            }
          }
          return;
        }
      }
    }
    var writable := *;
    if !writable {
      shelf.faults := shelf.faults + 1;
      return;
    }
    shelf.records := shelf.records - {rec.id};
    gone := true;
  }

  /** `list` is every record of the catalogue, once. */
  ghost predicate Complete(list: seq<Record>, records: map<nat, Record>)
  {
    && (forall i | 0 <= i < |list| :: list[i].id in records && records[list[i].id] == list[i])
    && (forall i, j | 0 <= i < j < |list| :: list[i].id != list[j].id)
    && (forall id | id in records :: exists i :: 0 <= i < |list| && list[i].id == id)
  }

  /** The first `i` records have met their fate, the rest are as they were. */
  ghost predicate Processed(list: seq<Record>, i: nat, offsite: Option<Offsite>, clean: bool,
                            records: map<nat, Record>, files: set<Path>, objects: set<Location>)
    requires i <= |list|
  {
    && (forall j | 0 <= j < i :: Fate(list[j], offsite, clean, records, files, objects))
    && (forall j | i <= j < |list| :: list[j].id in records && records[list[j].id] == list[j])
  }

  lemma ProcessedTurn(list: seq<Record>, i: nat, offsite: Option<Offsite>, clean: bool, ok: bool,
                      records: map<nat, Record>, files: set<Path>, objects: set<Location>,
                      records': map<nat, Record>, files': set<Path>, objects': set<Location>)
    requires i < |list| && Processed(list, i, offsite, clean, records, files, objects)
    requires forall a, b | 0 <= a < b < |list| :: list[a].id != list[b].id
    requires files' <= files && objects' <= objects && records' - {list[i].id} == records - {list[i].id}
    requires Fate(list[i], offsite, ok, records', files', objects')
    ensures Processed(list, i + 1, offsite, clean && ok, records', files', objects')
  {
    var id := list[i].id;
    forall j | 0 <= j < |list| && j != i
      ensures list[j].id in records' <==> list[j].id in records
      ensures list[j].id in records ==> records'[list[j].id] == records[list[j].id]
    {
      assert list[j].id in records' <==> list[j].id in records' - {id};
      assert list[j].id in records <==> list[j].id in records - {id};
      assert list[j].id in records ==> (records' - {id})[list[j].id] == (records - {id})[list[j].id];
    }
    forall j | 0 <= j < i + 1 ensures Fate(list[j], offsite, clean && ok, records', files', objects') {
      if j < i { assert Fate(list[j], offsite, clean, records, files, objects); }
    }
  }

  /** Only objects that delete requests of the first `i` records went to are gone. */
  ghost predicate OnlyAddressed(list: seq<Record>, i: nat, offsite: Option<Offsite>, objects0: set<Location>,
      objects: set<Location>)
    requires i <= |list|
  {
    && objects <= objects0
    && forall l | l in objects0 && l !in objects ::
         exists j :: 0 <= j < i && Addresses(list[j], offsite, l)
  }

  lemma OnlyAddressedTurn(list: seq<Record>, i: nat, offsite: Option<Offsite>, objects0: set<Location>,
      objects: set<Location>, objects': set<Location>)
    requires i < |list| && OnlyAddressed(list, i, offsite, objects0, objects) && objects' <= objects
    requires forall l | l in objects && l !in objects' :: Addresses(list[i], offsite, l)
    ensures OnlyAddressed(list, i + 1, offsite, objects0, objects')
  {
    forall l | l in objects0 && l !in objects' ensures exists j :: 0 <= j < i + 1 && Addresses(list[j], offsite, l) {
      if l !in objects {
        var j :| 0 <= j < i && Addresses(list[j], offsite, l);
      }
    }
  }

  /** The ids of the listed records with a property, in order. */
  function Ids(list: seq<Record>, p: Record -> bool): seq<nat>
  {
    if list == [] then []
    else
      var last := list[|list| - 1];
      Ids(list[..|list| - 1], p) + if p(last) then [last.id] else []
  }

  lemma {:induction false} IdsFrame(list: seq<Record>, p: Record -> bool, q: Record -> bool)
    requires forall i | 0 <= i < |list| :: p(list[i]) == q(list[i])
    ensures Ids(list, p) == Ids(list, q)
  {
    if list != [] { IdsFrame(list[..|list| - 1], p, q); }
  }

  /** The listed records that are still in the catalogue. */
  function KeptIds(list: seq<Record>, records: map<nat, Record>): seq<nat>
  {
    Ids(list, (x: Record) => x.id in records)
  }

  /** The listed records that are gone although they named an offsite copy. */
  function RefsLost(list: seq<Record>, records: map<nat, Record>): seq<nat>
  {
    Ids(list, (x: Record) => x.remote.Some? && x.id !in records)
  }

  lemma IdsTurn(list: seq<Record>, i: nat, records: map<nat, Record>, records': map<nat, Record>)
    requires i < |list| && forall a, b | 0 <= a < b < |list| :: list[a].id != list[b].id
    requires records' - {list[i].id} == records - {list[i].id}
    ensures KeptIds(list[..i + 1], records')
         == KeptIds(list[..i], records) + if list[i].id in records' then [list[i].id] else []
    ensures |RefsLost(list[..i + 1], records')|
         == |RefsLost(list[..i], records)| + if list[i].remote.Some? && list[i].id !in records' then 1 else 0
  {
    var id := list[i].id;
    assert list[..i + 1][..i] == list[..i];
    forall j | 0 <= j < i ensures list[..i][j].id in records <==> list[..i][j].id in records' {
      assert list[j].id in records' <==> list[j].id in records' - {id};
      assert list[j].id in records <==> list[j].id in records - {id};
    }
    IdsFrame(list[..i], (x: Record) => x.id in records, (x: Record) => x.id in records');
    IdsFrame(list[..i], (x: Record) => x.remote.Some? && x.id !in records,
             (x: Record) => x.remote.Some? && x.id !in records');
  }

  /** The report on the first `i` records: one error per kept record, every lost reference counted. */
  ghost predicate Accounted(list: seq<Record>, i: nat, offsite: Option<Offsite>, records: map<nat, Record>, r: Result)
    requires i <= |list|
  {
    && r.total == |list| && r.dropped + r.kept == i
    && r.errors == KeptIds(list[..i], records) && |r.errors| == r.kept
    && (offsite.Some? ==> r.refsDropped == 0)
    && (offsite.None? ==> |RefsLost(list[..i], records)| <= r.refsDropped)
  }

  function Reported(r: Result, id: nat, gone: bool, refs: nat): Result
  {
    var r' := r.(refsDropped := r.refsDropped + refs);
    if gone then r'.(dropped := r.dropped + 1) else r'.(kept := r.kept + 1, errors := r.errors + [id])
  }

  lemma AccountedTurn(list: seq<Record>, i: nat, offsite: Option<Offsite>, records: map<nat, Record>, records': map<nat,
      Record>, r: Result, refs: nat)
    requires i < |list| && forall a, b | 0 <= a < b < |list| :: list[a].id != list[b].id
    requires records' - {list[i].id} == records - {list[i].id}
    requires Accounted(list, i, offsite, records, r)
    requires list[i].id !in records' && offsite.None? && list[i].remote.Some? ==> refs == 1
    requires offsite.Some? ==> refs == 0
    ensures Accounted(list, i + 1, offsite, records', Reported(r, list[i].id, list[i].id !in records', refs))
  {
    hide KeptIds, RefsLost;
    IdsTurn(list, i, records, records');
  }

  method Sweep(shelf: Shelf, list: seq<Record>, offsite: Option<Offsite>) returns (r: Result)
    requires Complete(list, shelf.records)
    modifies shelf
    ensures Accounted(list, |list|, offsite, shelf.records, r)
    ensures Processed(list, |list|, offsite, shelf.faults == old(shelf.faults),
        shelf.records, shelf.files, shelf.objects)
    ensures shelf.records.Keys <= old(shelf.records).Keys
    ensures shelf.faults >= old(shelf.faults) && shelf.files <= old(shelf.files)
    ensures OnlyAddressed(list, |list|, offsite, old(shelf.objects), shelf.objects)
  {
    r := Result(|list|, 0, 0, [], 0);
    assert Processed(list, 0, offsite, true, shelf.records, shelf.files, shelf.objects);
    assert Accounted(list, 0, offsite, shelf.records, r);
    hide Fate, Processed, Accounted, OnlyAddressed, Addresses;
    assert OnlyAddressed(list, 0, offsite, shelf.objects, shelf.objects) by {
      NothingAddressed(list, offsite, shelf.objects);
    }
    for i := 0 to |list|
      invariant Processed(list, i, offsite, shelf.faults == old(shelf.faults),
          shelf.records, shelf.files, shelf.objects)
      invariant Accounted(list, i, offsite, shelf.records, r) && shelf.records.Keys <= old(shelf.records).Keys
      invariant shelf.faults >= old(shelf.faults) && shelf.files <= old(shelf.files)
      invariant OnlyAddressed(list, i, offsite, old(shelf.objects), shelf.objects)
    {
      ghost var records1, files1, objects1, faults1 := shelf.records, shelf.files, shelf.objects, shelf.faults;
      NextUntouched(list, i, offsite, shelf.faults == old(shelf.faults), records1, files1, objects1);
      var gone, refs := DropOne(shelf, list[i], offsite);
      ProcessedTurn(list, i, offsite, faults1 == old(shelf.faults), shelf.faults == faults1, records1, files1, objects1,
                    shelf.records, shelf.files, shelf.objects);
      OnlyAddressedTurn(list, i, offsite, old(shelf.objects), objects1, shelf.objects);
      AccountedTurn(list, i, offsite, records1, shelf.records, r, refs);
      r := Reported(r, list[i].id, gone, refs);
    }
  }

  lemma NothingAddressed(list: seq<Record>, offsite: Option<Offsite>, objects: set<Location>)
    ensures OnlyAddressed(list, 0, offsite, objects, objects)
  {
  }

  lemma NextUntouched(list: seq<Record>, i: nat, offsite: Option<Offsite>, clean: bool, records: map<nat, Record>,
      files: set<Path>, objects: set<Location>)
    requires i < |list| && Processed(list, i, offsite, clean, records, files, objects)
    ensures list[i].id in records && records[list[i].id] == list[i]
  {
  }

  // ---- What the sweep guarantees ------------------------------------------------------

  /**
    Every referenced file that still exists is still referenced by its record, and so is every
    object, unless its record was dropped with offsite unconfigured or names a key outside
    the configured path.
  */
  lemma NothingOrphaned(list: seq<Record>, offsite: Option<Offsite>, clean: bool,
                        records0: map<nat, Record>, records: map<nat, Record>, files: set<Path>,
                        objects: set<Location>, id: nat)
    requires Complete(list, records0) && Processed(list, |list|, offsite, clean, records, files, objects)
    requires id in records0 && records0[id].id == id
    ensures records0[id].local.Some? && records0[id].local.value in files ==>
      id in records && records[id] == records0[id]
    ensures records0[id].remote.Some? && records0[id].remote.value in objects ==>
      || (id in records && records[id].remote == records0[id].remote)
      || (id !in records && (offsite.None? || !InPlace(offsite.value, records0[id].remote.value)))
  {
    var i :| 0 <= i < |list| && list[i].id == id;
    assert Fate(list[i], offsite, clean, records, files, objects);
    if offsite.Some? && list[i].remote.Some? && Ours(offsite.value, list[i].remote.value) {
      TargetIff(offsite.value, list[i].remote.value);
    }
  }

  /**
    When a record is dropped, its object survives, named by nobody and counted nowhere, exactly
    if its key lies outside the configured path, unless another record's request reached it.
  */
  lemma OrphanedIff(list: seq<Record>, cfg: Offsite, clean: bool, records: map<nat, Record>, files: set<Path>,
                    objects0: set<Location>, objects: set<Location>, i: nat)
    requires Processed(list, |list|, Some(cfg), clean, records, files, objects)
    requires OnlyAddressed(list, |list|, Some(cfg), objects0, objects)
    requires i < |list| && list[i].id !in records && list[i].remote.Some? && list[i].remote.value in objects0
    requires forall j | 0 <= j < |list| && j != i :: !Addresses(list[j], Some(cfg), list[i].remote.value)
    ensures list[i].remote.value in objects <==> !InPlace(cfg, list[i].remote.value)
  {
    assert Fate(list[i], Some(cfg), clean, records, files, objects);
    TargetIff(cfg, list[i].remote.value);
  }

  /** After the configured path has changed, a fault-free sweep drops this record and leaves its object behind. */
  lemma MovedPathOrphans() returns (list: seq<Record>, cfg: Offsite, l: Location)
    ensures l == Object("B", "old/k") && cfg == Offsite("B", "new/") && |list| == 1 && list[0].remote == Some(l)
    ensures Complete(list, map[0 := list[0]])
    ensures Processed(list, 1, Some(cfg), true, map[], {}, {l}) && OnlyAddressed(list, 1, Some(cfg), {l}, {l})
  {
    l, cfg := Object("B", "old/k"), Offsite("B", "new/");
    list := [Record(0, 1, None, Some(l))];
    assert "new/"[0] != "old/k"[0];
    TargetIff(cfg, l);
    assert list[0].id == 0;
  }

  /**
    A fault-free sweep, from whatever an earlier one left behind, empties the catalogue
    exactly when no record names an offsite copy outside the configured bucket.
  */
  lemma ConvergesIff(list: seq<Record>, offsite: Option<Offsite>, records0: map<nat, Record>, records: map<nat, Record>,
      files: set<Path>, objects: set<Location>)
    requires Complete(list, records0) && Processed(list, |list|, offsite, true, records, files, objects)
    requires records.Keys <= records0.Keys
    ensures records == map[] <==> forall i | 0 <= i < |list| :: !Stuck(list[i], offsite)
  {
    forall id | id in records0
      ensures id in records <==> exists i :: 0 <= i < |list| && list[i].id == id && Stuck(list[i], offsite)
    {
      var i :| 0 <= i < |list| && list[i].id == id;
      assert Fate(list[i], offsite, true, records, files, objects);
    }
  }
}
