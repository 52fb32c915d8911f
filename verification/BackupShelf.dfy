/**
  What retention and the bulk sweep work on: backup records, local files, offsite objects
  (internal/store/backup/backup.go, the floor and presence tests of
  internal/operations/retention.go, and the addressing of internal/services/s3/client.go).
*/
module BackupShelf {
  import opened Basics

  type Path = string

  /** Where an offsite copy is said to be; not every stored text is an object's address. */
  datatype Location = Object(bucket: string, key: string) | Unparseable(text: string)

  datatype Record = Record(id: nat, time: int, local: Option<Path>, remote: Option<Location>)

  // ---- Addressing ---------------------------------------------------------------------

  /** The active offsite settings: a bucket, and a path that is put before every key. */
  datatype Offsite = Offsite(bucket: string, path: string)

  /** The stored address parses and names the configured bucket. */
  predicate Ours(cfg: Offsite, l: Location)
  {
    l.Object? && l.bucket == cfg.bucket
  }

  /** A key recorded under another path is passed through as it is. */
  function RelativeKey(cfg: Offsite, key: string): string
  {
    if cfg.path <= key then key[|cfg.path|..] else key
  }

  /** The object a request for this address really goes to: the path is put back in front. */
  function Target(cfg: Offsite, l: Location): Location
    requires l.Object?
  {
    Object(cfg.bucket, cfg.path + RelativeKey(cfg, l.key))
  }

  /** The key lies beneath the configured path. */
  predicate InPlace(cfg: Offsite, l: Location)
  {
    Ours(cfg, l) && cfg.path <= l.key
  }

  /** A request reaches the object that was recorded exactly if its key lies beneath the path. */
  lemma TargetIff(cfg: Offsite, l: Location)
    requires Ours(cfg, l)
    ensures Target(cfg, l) == l <==> InPlace(cfg, l)
  {
    if cfg.path <= l.key {
      assert l.key == cfg.path + l.key[|cfg.path|..];
    } else {
      assert |cfg.path + l.key| > |l.key|;
    }
  }

  // ---- The floor ----------------------------------------------------------------------

  const MinRetained := 2

  /** How many of the first `i` copies were taken under the floor. */
  function Rank(marks: seq<bool>, i: nat): nat
    requires i <= |marks|
  {
    if i == 0 then 0 else Rank(marks, i - 1) + if marks[i - 1] then 1 else 0
  }

  lemma {:induction false} RankPrefix(marks: seq<bool>, mark: bool, i: nat)
    requires i <= |marks|
    ensures Rank(marks + [mark], i) == Rank(marks, i)
  {
    if i > 0 { RankPrefix(marks, mark, i - 1); }
  }

  lemma RankTurn(marks: seq<bool>, mark: bool)
    ensures forall i | 0 <= i <= |marks| :: Rank(marks + [mark], i) == Rank(marks, i)
    ensures Rank(marks + [mark], |marks| + 1) == Rank(marks, |marks|) + if mark then 1 else 0
  {
    forall i | 0 <= i <= |marks| ensures Rank(marks + [mark], i) == Rank(marks, i) {
      RankPrefix(marks, mark, i);
    }
  }

  lemma {:induction false} FirstOne(marks: seq<bool>, i: nat) returns (a: nat)
    requires i <= |marks| && Rank(marks, i) >= 1
    ensures a < i && marks[a] && Rank(marks, a) == 0
  {
    if Rank(marks, i - 1) >= 1 { a := FirstOne(marks, i - 1); } else { a := i - 1; }
  }

  lemma {:induction false} FirstTwo(marks: seq<bool>, i: nat) returns (a: nat, b: nat)
    requires i <= |marks| && Rank(marks, i) >= 2
    ensures a < b < i && marks[a] && marks[b] && Rank(marks, a) == 0 && Rank(marks, b) == 1
  {
    if Rank(marks, i - 1) >= 2 {
      a, b := FirstTwo(marks, i - 1);
    } else {
      b := i - 1;
      a := FirstOne(marks, b);
    }
  }

  function Capped(rank: nat): nat
  {
    if rank < MinRetained then rank else MinRetained
  }

  lemma TwoIn<T>(s: set<T>, p: T, q: T)
    requires p in s && q in s && p != q
    ensures |s| >= 2
  {
    assert {p, q} <= s;
    SubsetSize({p, q}, s);
  }

  lemma {:induction false} SubsetSize<T>(a: set<T>, b: set<T>)
    requires a <= b
    ensures |a| <= |b|
  {
    if a != {} {
      var x :| x in a;
      SubsetSize(a - {x}, b - {x});
    }
  }

  function Min(a: nat, b: nat): nat
  {
    if a < b then a else b
  }

  // ---- Records and copies -------------------------------------------------------------

  /**
    What the catalogue query returns: records true to the catalogue, newest first, without
    repeats; a local-only record is left out unless its file could be seen.
  */
  predicate Listing(list: seq<Record>, records: map<nat, Record>, files: set<Path>)
  {
    && (forall i | 0 <= i < |list| :: list[i].id in records && records[list[i].id] == list[i])
    && (forall i, j | 0 <= i < j < |list| :: list[i].id != list[j].id && list[i].time >= list[j].time)
    && (forall i | 0 <= i < |list| && list[i].local.Some? && list[i].remote.None? :: list[i].local.value in files)
  }

  /** Records know their own id, and no two share a file or an object. */
  predicate Catalogue(records: map<nat, Record>)
  {
    && (forall id | id in records :: records[id].id == id)
    && (forall a, b | a in records && b in records && a != b ::
          && (records[a].local.Some? ==> records[a].local != records[b].local)
          && (records[a].remote.Some? ==> records[a].remote != records[b].remote))
  }

  /** The same record with fewer copies. */
  predicate Narrowed(rec: Record, rec': Record)
  {
    && rec'.id == rec.id && rec'.time == rec.time
    && (rec'.local == rec.local || rec'.local.None?) && (rec'.remote == rec.remote || rec'.remote.None?)
  }

  lemma CatalogueNarrows(records: map<nat, Record>, records': map<nat, Record>)
    requires Catalogue(records) && forall id | id in records' :: id in records && Narrowed(records[id], records'[id])
    ensures Catalogue(records')
  {
  }

  class Shelf {
    var files: set<Path>
    var objects: set<Location>
    var records: map<nat, Record>

    /** How many removals have failed. */
    ghost var faults: nat

    /** How often a local file, or an offsite copy, was believed present that is not there. */
    ghost var ghosts: nat
    ghost var unproven: nat

    /** Only a definite "not there" counts as absent. */
    method LocalArchivePresent(p: Path) returns (present: bool)
      modifies this`ghosts
      ensures p in files ==> present
      ensures ghosts == old(ghosts) + if present && p !in files then 1 else 0
    {
      var sick := *;                       // a stat error of another kind
      present := p in files || sick;
      if sick && p !in files { ghosts := ghosts + 1; }
    }

    /**
      Whether there is an object where the client looks for this one; an address that is not
      ours to look up, or a failed lookup, counts as present.
    */
    method RemoteArchivePresent(l: Location, cfg: Offsite) returns (present: bool)
      modifies this`unproven
      ensures !Ours(cfg, l) || Target(cfg, l) in objects ==> present
      ensures unproven == old(unproven) + if present && l !in objects then 1 else 0
    {
      var failed := *;
      present := !Ours(cfg, l) || Target(cfg, l) in objects || failed;
      if present && l !in objects { unproven := unproven + 1; }
    }

    /** The file goes first; then the row, or just its location if there is another copy. */
    method RemoveLocalCopy(rec: Record) returns (ok: bool)
      requires rec.id in records && records[rec.id] == rec && rec.local.Some?
      modifies this`files, this`records, this`faults
      ensures files == old(files) - {rec.local.value} || (files == old(files) && !ok && records == old(records))
      ensures records == old(records) || records == WithoutLocal(old(records), rec)
      ensures ok ==> records == WithoutLocal(old(records), rec)
      ensures faults == old(faults) + if ok then 0 else 1
    {
      var removable, writable := *, *;
      ok := removable && writable;
      if !ok { faults := faults + 1; }
      if !removable { return; }
      files := files - {rec.local.value};
      if writable { records := WithoutLocal(records, rec); }
    }

    /** Deleting an object that is not there succeeds. */
    method DeleteObject(l: Location) returns (ok: bool)
      modifies this`objects, this`faults
      ensures objects == old(objects) || objects == old(objects) - {l}
      ensures ok ==> l !in objects
      ensures faults == old(faults) + if ok then 0 else 1
    {
      ok := *;
      var effective := *;
      if ok || effective { objects := objects - {l}; }
      if !ok { faults := faults + 1; }
    }

    method RemoveRemoteCopy(rec: Record) returns (ok: bool)
      requires rec.id in records && records[rec.id] == rec && rec.remote.Some?
      modifies this`records, this`faults
      ensures records == if ok then WithoutRemote(old(records), rec) else old(records)
      ensures faults == old(faults) + if ok then 0 else 1
    {
      ok := *;
      if ok { records := WithoutRemote(records, rec); } else { faults := faults + 1; }
    }
  }

  function WithoutLocal(records: map<nat, Record>, rec: Record): map<nat, Record>
  {
    if rec.remote.None? then records - {rec.id} else records[rec.id := rec.(local := None)]
  }

  function WithoutRemote(records: map<nat, Record>, rec: Record): map<nat, Record>
  {
    if rec.local.None? then records - {rec.id} else records[rec.id := rec.(remote := None)]
  }
}
