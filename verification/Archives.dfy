/**
  Publishing an archive and extracting one (writeVerifiedArchive, verifyTarZstdFrom,
  ExtractTarZstdWith and handleFile in internal/compression/compression.go).

  Decoding is a function of the bytes read; SHA-256 is taken as injective, so a digest is
  the bytes under a constructor.
*/
module Archives {
  import opened Basics
  import opened Confinement
  import opened AtomicFiles

  type Bytes = seq<int>

  datatype Digest = Sha(of: Bytes)

  datatype Kind = Directory | Regular | Special

  datatype Entry = Entry(name: string, kind: Kind, content: Bytes)

  /** What a decoder makes of a whole stream; None is an error somewhere in it. */
  type Decoder = Bytes -> Option<seq<Entry>>

  // ---- Reading a file that anyone may rewrite -----------------------------------------

  /** The open archive; its content can change before every single read. */
  class Source {
    var content: Bytes

    /** How often somebody else wrote to it, and how many reads have failed. */
    ghost var rewrites: nat
    ghost var faults: nat

    method Read(pos: nat) returns (chunk: Bytes, eof: bool, failed: bool)
      modifies this
      ensures eof || failed ==> chunk == []
      ensures eof <==> pos >= |content|
      ensures !eof && !failed ==> chunk != [] && pos + |chunk| <= |content| && chunk == content[pos..pos + |chunk|]
      ensures rewrites >= old(rewrites) && (rewrites == old(rewrites) ==> content == old(content))
      ensures faults == old(faults) + if failed then 1 else 0
    {
      var rewritten := *;
      if rewritten { content, rewrites := *, rewrites + 1; }
      failed := *;
      if failed { faults := faults + 1; }
      chunk, eof := [], pos >= |content|;
      if !eof && !failed {
        var n :| pos < n <= |content|;
        chunk := content[pos..n];
      }
    }
  }

  /** A hash that has been fed the bytes that went through a TeeReader. */
  class Hasher {
    var fed: Bytes

    constructor ()
      ensures fed == []
    {
      fed := [];
    }

    method Write(chunk: Bytes)
      modifies this
      ensures fed == old(fed) + chunk
    {
      fed := fed + chunk;
    }

    function Sum(): Digest
      reads this
    {
      Sha(fed)
    }
  }

  /** Reads on from `pos`, up to the end unless the consumer stops early. */
  method Consume(src: Source, h: Hasher, pos: nat, budget: nat, toEnd: bool) returns (read: Bytes, ok: bool)
    modifies src, h
    ensures h.fed == old(h.fed) + read
    ensures ok && toEnd ==> |src.content| <= pos + |read|
    ensures src.rewrites >= old(src.rewrites) && src.faults >= old(src.faults)
    ensures ok ==> src.faults == old(src.faults)
    ensures src.rewrites == old(src.rewrites) ==> src.content == old(src.content)
    ensures src.rewrites == old(src.rewrites) && pos <= |src.content| ==>
      && pos + |read| <= |src.content| && read == src.content[pos..pos + |read|]
      && (src.faults == old(src.faults) && budget > |src.content| ==> ok)
  {
    read, ok := [], false;
    for i := 0 to budget
      invariant h.fed == old(h.fed) + read
      invariant src.rewrites >= old(src.rewrites) && src.faults == old(src.faults)
      invariant src.rewrites == old(src.rewrites) ==> src.content == old(src.content)
      invariant src.rewrites == old(src.rewrites) && pos <= |src.content| ==>
        i <= |read| && pos + |read| <= |src.content| && read == src.content[pos..pos + |read|]
    {
      var chunk, eof, failed := src.Read(pos + |read|);
      if failed { return; }
      var satisfied := *;
      if eof || (!toEnd && satisfied) { return read, true; }
      h.Write(chunk);
      read := read + chunk;
    }
  }

  /**
    One pass: the decoder takes what it needs, and the tail it left is hashed as well, so
    the digest covers every byte the result depends on.
  */
  method ReadPass(src: Source, h: Hasher, budget: nat) returns (read: Bytes, ok: bool)
    requires h.fed == []
    modifies src, h
    ensures h.fed == read
    // Success means that the end of the file, as it then was, had been reached.
    ensures ok ==> |src.content| <= |read| && src.faults == old(src.faults)
    ensures src.rewrites >= old(src.rewrites) && src.faults >= old(src.faults)
    // A file nobody rewrites is read as it is, and only a failing read prevents that.
    ensures src.rewrites == old(src.rewrites) ==>
      && src.content == old(src.content) && (ok ==> read == src.content)
      && (src.faults == old(src.faults) && budget > |src.content| ==> ok)
  {
    read, ok := Consume(src, h, 0, budget, false);
    if ok {
      assert src.rewrites == old(src.rewrites) ==> |read| <= |src.content|;
      var tail;
      tail, ok := Consume(src, h, |read|, budget, true);
      read := read + tail;
    }
  }

  // ---- Unpacking ----------------------------------------------------------------------

  datatype Node = Folder | File(content: Bytes)

  type Tree = map<Cleaned, Node>

  /** The folder after the first `k` names of a path. */
  function Upto(at: Cleaned, k: nat): Cleaned
    requires k <= |at.names|
  {
    at.(names := at.names[..k])
  }

  /** The folders on the way, from the one after `lo` names to the one after `hi`; a file in the way is an error. */
  function MadeFolders(tree: Tree, at: Cleaned, lo: nat, hi: nat): Option<Tree>
    requires hi <= |at.names|
    decreases hi + 1 - lo
  {
    if lo > hi then Some(tree)
    else if Upto(at, lo) in tree && tree[Upto(at, lo)].File? then None
    else MadeFolders(tree[Upto(at, lo) := Folder], at, lo + 1, hi)
  }

  /** The folders from the destination down to the entry's own, or to the one it lies in. */
  function Way(tree: Tree, dir: string, at: Cleaned, whole: bool): Option<Tree>
  {
    var lo := |Clean(dir).names|;
    if whole then MadeFolders(tree, at, lo, |at.names|)
    else if at.names == [] then Some(tree)
    else MadeFolders(tree, at, lo, |at.names| - 1)
  }

  /** One entry, when no I/O fails: refused, or the tree with the entry in it. */
  function Placed(tree: Tree, dir: string, e: Entry): Option<Tree>
  {
    if e.name == "" then Some(tree)
    else if e.kind.Special? || !Accepted(dir, e.name) then None
    else
      var at := Join(dir, e.name);
      match Way(tree, dir, at, e.kind.Directory?)
      case None => None
      case Some(tree') =>
        if e.kind.Directory? then Some(tree')
        else if at in tree' && tree'[at].Folder? then None
        else Some(tree'[at := File(e.content)])
  }

  /** Every wanted entry in turn. */
  function Unpacked(tree: Tree, dir: string, entries: seq<Entry>, keep: string -> bool): Option<Tree>
    decreases |entries|
  {
    if entries == [] then Some(tree)
    else if !keep(entries[0].name) then Unpacked(tree, dir, entries[1..], keep)
    else
      match Placed(tree, dir, entries[0])
      case None => None
      case Some(tree') => Unpacked(tree', dir, entries[1..], keep)
  }

  /** Whatever differs is beneath the directory. */
  ghost predicate ConfinedChange(dir: string, before: Tree, after: Tree)
  {
    && before.Keys <= after.Keys
    && forall at | at in after && !(at in before && before[at] == after[at]) :: Beneath(Clean(dir), at)
  }

  /** What making folders does: the last of them is there, and everything else is as it was or a new folder. */
  lemma {:induction false} MadeFoldersMeans(tree: Tree, at: Cleaned, lo: nat, hi: nat)
    requires hi <= |at.names| && MadeFolders(tree, at, lo, hi).Some?
    ensures
      var tree' := MadeFolders(tree, at, lo, hi).value;
      && tree.Keys <= tree'.Keys && (forall p | p in tree :: tree'[p] == tree[p])
      && (forall p | p in tree' && p !in tree :: tree'[p].Folder? && exists k :: lo <= k <= hi && p == Upto(at, k))
      && (lo <= hi ==> Upto(at, hi) in tree' && tree'[Upto(at, hi)].Folder?)
    decreases hi + 1 - lo
  {
    if lo <= hi {
      MadeFoldersMeans(tree[Upto(at, lo) := Folder], at, lo + 1, hi);
    }
  }

  lemma UptoIsBeneath(base: Cleaned, at: Cleaned, k: nat)
    requires Beneath(base, at) && |base.names| <= k <= |at.names|
    ensures Beneath(base, Upto(at, k))
  {
    assert base.names == at.names[..|base.names|];
  }

  lemma MadeFoldersConfined(tree: Tree, dir: string, at: Cleaned, lo: nat, hi: nat)
    requires Beneath(Clean(dir), at) && |Clean(dir).names| <= lo && hi <= |at.names|
    requires MadeFolders(tree, at, lo, hi).Some?
    ensures ConfinedChange(dir, tree, MadeFolders(tree, at, lo, hi).value)
  {
    hide Clean, Beneath, MadeFolders;
    MadeFoldersMeans(tree, at, lo, hi);
    var tree' := MadeFolders(tree, at, lo, hi).value;
    forall p | p in tree' && !(p in tree && tree[p] == tree'[p]) ensures Beneath(Clean(dir), p) {
      var k :| lo <= k <= hi && p == Upto(at, k);
      UptoIsBeneath(Clean(dir), at, k);
    }
  }

  lemma WayMeans(tree: Tree, dir: string, at: Cleaned, whole: bool)
    requires Beneath(Clean(dir), at) && Way(tree, dir, at, whole).Some?
    ensures
      var tree' := Way(tree, dir, at, whole).value;
      && ConfinedChange(dir, tree, tree')
      && (forall p | p in tree :: p in tree' && tree'[p] == tree[p])
      && (forall p | p in tree' && p !in tree :: tree'[p].Folder?)
      && (whole ==> at in tree' && tree'[at].Folder?)
  {
    var lo := |Clean(dir).names|;
    hide Clean, MadeFolders;
    if whole {
      MadeFoldersMeans(tree, at, lo, |at.names|);
      MadeFoldersConfined(tree, dir, at, lo, |at.names|);
      assert Upto(at, |at.names|) == at;
    } else if at.names != [] {
      MadeFoldersMeans(tree, at, lo, |at.names| - 1);
      MadeFoldersConfined(tree, dir, at, lo, |at.names| - 1);
    }
  }

  /** What one entry does: its own node is there, other nodes stay, and new ones are folders on the way. */
  lemma PlacedMeans(tree: Tree, dir: string, e: Entry)
    requires Placed(tree, dir, e).Some?
    ensures
      var tree', at := Placed(tree, dir, e).value, Join(dir, e.name);
      && ConfinedChange(dir, tree, tree')
      && (forall p | p in tree && (e.name == "" || p != at) :: p in tree' && tree'[p] == tree[p])
      && (forall p | p in tree' && p !in tree && (e.name == "" || p != at) :: tree'[p].Folder?)
      && (e.name != "" ==>
            Accepted(dir, e.name) && at in tree' && tree'[at] == if e.kind.Directory? then Folder else File(e.content))
  {
    hide Accepted, Join, Clean, Beneath, Way;
    if e.name != "" {
      AcceptedIffBeneath(dir, e.name);
      WayMeans(tree, dir, Join(dir, e.name), e.kind.Directory?);
    }
  }

  lemma PlacedIsOrdinary(tree: Tree, dir: string, e: Entry)
    requires Placed(tree, dir, e).Some?
    ensures e.name != "" ==> !e.kind.Special?
  {
  }

  /** Unpacking succeeds only if every wanted entry is a file or folder that stays inside. */
  lemma {:induction false} UnpackedMeans(tree: Tree, dir: string, entries: seq<Entry>, keep: string -> bool)
    requires Unpacked(tree, dir, entries, keep).Some?
    ensures ConfinedChange(dir, tree, Unpacked(tree, dir, entries, keep).value)
    ensures forall i | 0 <= i < |entries| && keep(entries[i].name) && entries[i].name != "" ::
      !entries[i].kind.Special? && AlwaysInside(dir, entries[i].name)
    decreases |entries|
  {
    hide Placed, Accepted, AlwaysInside, Join, Clean, Beneath;
    if entries != [] {
      var e := entries[0];
      if keep(e.name) {
        PlacedMeans(tree, dir, e);
        PlacedIsOrdinary(tree, dir, e);
        AcceptedIffAlwaysInside(dir, e.name);
        UnpackedMeans(Placed(tree, dir, e).value, dir, entries[1..], keep);
      } else {
        UnpackedMeans(tree, dir, entries[1..], keep);
      }
      forall i | 0 <= i < |entries| && keep(entries[i].name) && entries[i].name != ""
        ensures !entries[i].kind.Special? && AlwaysInside(dir, entries[i].name)
      {
        if i > 0 { assert entries[i] == entries[1..][i - 1]; }
      }
    }
  }

  /** An entry that is wanted and has a name puts its node here. */
  predicate Puts(dir: string, e: Entry, keep: string -> bool, at: Cleaned)
  {
    keep(e.name) && e.name != "" && Join(dir, e.name) == at
  }

  /** A path no entry puts anything at stays as it was, or becomes a folder on the way to some entry. */
  lemma {:induction false} UnpackedKeeps(tree: Tree, dir: string, entries: seq<Entry>, keep: string -> bool,
      at: Cleaned)
    requires Unpacked(tree, dir, entries, keep).Some?
    requires forall i | 0 <= i < |entries| :: !Puts(dir, entries[i], keep, at)
    ensures var tree' := Unpacked(tree, dir, entries, keep).value;
      (at in tree ==> at in tree' && tree'[at] == tree[at]) && (at in tree' && at !in tree ==> tree'[at].Folder?)
    decreases |entries|
  {
    hide Placed, Accepted, Join;
    if entries != [] {
      var e := entries[0];
      assert !Puts(dir, e, keep, at);
      if keep(e.name) { PlacedMeans(tree, dir, e); }
      UnpackedKeeps(if keep(e.name) then Placed(tree, dir, e).value else tree, dir, entries[1..], keep, at);
    }
  }

  /** Each path holds what the last entry for it put there, whole. */
  lemma {:induction false} UnpackedHolds(tree: Tree, dir: string, entries: seq<Entry>, keep: string -> bool, i: nat)
    requires Unpacked(tree, dir, entries, keep).Some? && i < |entries|
    requires Puts(dir, entries[i], keep, Join(dir, entries[i].name))
    requires forall j | i < j < |entries| :: !Puts(dir, entries[j], keep, Join(dir, entries[i].name))
    ensures
      var tree', at := Unpacked(tree, dir, entries, keep).value, Join(dir, entries[i].name);
      at in tree' && tree'[at] == if entries[i].kind.Directory? then Folder else File(entries[i].content)
    decreases |entries|
  {
    hide Placed, Accepted, Join;
    var e := entries[0];
    var next := if keep(e.name) then Placed(tree, dir, e).value else tree;
    if i == 0 {
      PlacedMeans(tree, dir, e);
      UnpackedKeeps(next, dir, entries[1..], keep, Join(dir, e.name));
    } else {
      UnpackedHolds(next, dir, entries[1..], keep, i - 1);
    }
  }

  /** Exactly the entries that can be put there: no file is in the way of a folder, nor a folder in that of a file. */
  predicate Fits(tree: Tree, dir: string, e: Entry)
  {
    e.name == "" ||
    ( var at, lo := Join(dir, e.name), |Clean(dir).names|;
      && !e.kind.Special? && Accepted(dir, e.name)
      && (e.kind.Directory? ==> NoFiles(tree, at, lo, |at.names|))
      && (e.kind.Regular? ==> NoFiles(tree, at, lo, |at.names| - 1) && !(at in tree && tree[at].Folder?)))
  }

  predicate NoFiles(tree: Tree, at: Cleaned, lo: nat, hi: int)
    requires hi <= |at.names|
  {
    forall k | lo <= k <= hi :: Upto(at, k) in tree ==> tree[Upto(at, k)].Folder?
  }

  lemma {:induction false} MadeFoldersIff(tree: Tree, at: Cleaned, lo: nat, hi: nat)
    requires hi <= |at.names|
    ensures MadeFolders(tree, at, lo, hi).Some? <==> NoFiles(tree, at, lo, hi)
    decreases hi + 1 - lo
  {
    if lo <= hi {
      var tree' := tree[Upto(at, lo) := Folder];
      MadeFoldersIff(tree', at, lo + 1, hi);
      assert forall k | lo < k <= hi :: |Upto(at, k).names| != |Upto(at, lo).names|;
      assert !(Upto(at, lo) in tree && tree[Upto(at, lo)].File?) ==>
        (NoFiles(tree, at, lo, hi) <==> NoFiles(tree', at, lo + 1, hi));
    }
  }

  lemma NoFilesBelow(tree: Tree, at: Cleaned, lo: nat)
    ensures at.names == [] ==> NoFiles(tree, at, lo, |at.names| - 1)
  {
  }

  /** An entry is placed exactly if it fits. */
  lemma PlacedIff(tree: Tree, dir: string, e: Entry)
    ensures Placed(tree, dir, e).Some? <==> Fits(tree, dir, e)
  {
    hide Accepted, Join, Clean, MadeFolders, NoFiles, Beneath, ConfinedChange;
    if e.name != "" && !e.kind.Special? && Accepted(dir, e.name) {
      var at, lo := Join(dir, e.name), |Clean(dir).names|;
      AcceptedIffBeneath(dir, e.name);
      NoFilesBelow(tree, at, lo);
      MadeFoldersIff(tree, at, lo, |at.names|);
      if at.names != [] { MadeFoldersIff(tree, at, lo, |at.names| - 1); }
      if Way(tree, dir, at, e.kind.Directory?).Some? {
        WayMeans(tree, dir, at, e.kind.Directory?);
        if e.kind.Regular? && at.names != [] { OwnPathIsNoFolder(tree, at, lo); }
      }
    }
  }

  /** Making the folders an entry lies in does not make the entry one. */
  lemma OwnPathIsNoFolder(tree: Tree, at: Cleaned, lo: nat)
    requires at.names != [] && MadeFolders(tree, at, lo, |at.names| - 1).Some?
    ensures var tree' := MadeFolders(tree, at, lo, |at.names| - 1).value; at in tree' ==> at in tree
  {
    MadeFoldersMeans(tree, at, lo, |at.names| - 1);
    assert forall k | lo <= k <= |at.names| - 1 :: |Upto(at, k).names| != |at.names|;
  }

  class Destination {
    var tree: Tree

    /** How many calls have failed. */
    ghost var faults: nat

    method Attempt() returns (ok: bool)
      modifies this`faults
      ensures faults == old(faults) + if ok then 0 else 1
    {
      ok := *;
      if !ok { faults := faults + 1; }
    }
  }

  /** Making the folders on the way one by one; any of them may fail. */
  method MakeFolders(dest: Destination, dir: string, at: Cleaned, lo: nat, hi: nat) returns (ok: bool)
    requires Beneath(Clean(dir), at) && |Clean(dir).names| <= lo && hi <= |at.names|
    modifies dest
    ensures ok ==> MadeFolders(old(dest.tree), at, lo, hi) == Some(dest.tree)
    ensures ConfinedChange(dir, old(dest.tree), dest.tree)
    ensures dest.faults >= old(dest.faults)
    ensures !ok ==> dest.faults > old(dest.faults) || MadeFolders(old(dest.tree), at, lo, hi).None?
  {
    hide Clean;
    var k := lo;
    while k <= hi
      invariant lo <= k && (k <= hi + 1 || k == lo)
      invariant MadeFolders(old(dest.tree), at, lo, hi) == MadeFolders(dest.tree, at, k, hi)
      invariant ConfinedChange(dir, old(dest.tree), dest.tree) && dest.faults == old(dest.faults)
    {
      var made := dest.Attempt();
      if !made || (Upto(at, k) in dest.tree && dest.tree[Upto(at, k)].File?) { return false; }
      UptoIsBeneath(Clean(dir), at, k);
      dest.tree := dest.tree[Upto(at, k) := Folder];
      k := k + 1;
    }
    return true;
  }

  lemma ConfinedPut(dir: string, before: Tree, after: Tree, at: Cleaned, node: Node)
    requires ConfinedChange(dir, before, after) && Beneath(Clean(dir), at)
    ensures ConfinedChange(dir, before, after[at := node])
  {
  }

  /** handleFile, with I/O that may fail at any point. */
  method HandleFile(dest: Destination, dir: string, e: Entry) returns (ok: bool)
    modifies dest
    ensures ok ==> Placed(old(dest.tree), dir, e) == Some(dest.tree)
    ensures ConfinedChange(dir, old(dest.tree), dest.tree)
    ensures dest.faults >= old(dest.faults)
    ensures !ok ==> dest.faults > old(dest.faults) || Placed(old(dest.tree), dir, e).None?
  {
    hide Accepted, Join, Clean, MadeFolders, Beneath;
    if e.name == "" { return true; }
    if e.kind.Special? || !Accepted(dir, e.name) { return false; }
    AcceptedIffBeneath(dir, e.name);
    var at, lo := Join(dir, e.name), |Clean(dir).names|;
    if e.kind.Directory? {
      ok := MakeFolders(dest, dir, at, lo, |at.names|);
      return;
    }
    if at.names != [] {
      ok := MakeFolders(dest, dir, at, lo, |at.names| - 1);
      if !ok { return; }
    }
    if at in dest.tree && dest.tree[at].Folder? { return false; }
    // A file that could not be written out may hold any part of the content.
    var written := dest.Attempt();
    var created, partial := *, *;
    if written || created {
      var node := File(if written then e.content else partial);
      ConfinedPut(dir, old(dest.tree), dest.tree, at, node);
      dest.tree := dest.tree[at := node];
    }
    return written;
  }

  method ExtractEntries(dest: Destination, dir: string, entries: seq<Entry>, keep: string -> bool) returns (ok: bool)
    modifies dest
    ensures ok ==> Unpacked(old(dest.tree), dir, entries, keep) == Some(dest.tree)
    ensures ConfinedChange(dir, old(dest.tree), dest.tree)
    ensures dest.faults >= old(dest.faults)
    ensures !ok ==> dest.faults > old(dest.faults) || Unpacked(old(dest.tree), dir, entries, keep).None?
  {
    for i := 0 to |entries|
      invariant Unpacked(old(dest.tree), dir, entries, keep) == Unpacked(dest.tree, dir, entries[i..], keep)
      invariant ConfinedChange(dir, old(dest.tree), dest.tree) && dest.faults >= old(dest.faults)
    {
      assert entries[i..][1..] == entries[i + 1..];
      if keep(entries[i].name) {
        ok := HandleFile(dest, dir, entries[i]);
        if !ok { return; }
      }
    }
    return true;
  }

  // ---- Extraction ---------------------------------------------------------------------

  /** The first pass found an intact archive, and the catalogued one if one was named. */
  predicate Verified(bytes: Bytes, decode: Decoder, want: Option<Digest>)
  {
    decode(bytes).Some? && (want.Some? ==> Sha(bytes) == want.value)
  }

  /** How a file is read: as the verifier does, and as whatever format it looks like. */
  datatype Reading = Reading(decode: Decoder, identify: Bytes -> Option<nat>, decodeAs: nat -> Decoder)

  /** These bytes verify, look like a format that can read them, and unpack beneath `dir`. */
  predicate Extractable(bytes: Bytes, tree: Tree, dir: string, keep: string -> bool, want: Option<Digest>, how: Reading)
  {
    && Verified(bytes, how.decode, want) && !(Clean(dir) in tree && tree[Clean(dir)].File?)
    && Unpackable(bytes, tree[Clean(dir) := Folder], dir, keep, how)
  }

  predicate Unpackable(bytes: Bytes, tree: Tree, dir: string, keep: string -> bool, how: Reading)
  {
    && how.identify(bytes).Some?
    && var entries := how.decodeAs(how.identify(bytes).value)(bytes);
       entries.Some? && Unpacked(tree, dir, entries.value, keep).Some?
  }

  lemma FolderItself(tree: Tree, base: Cleaned)
    ensures Beneath(base, base)
    ensures MadeFolders(tree, base, |base.names|, |base.names|) ==
      if base in tree && tree[base].File? then None else Some(tree[base := Folder])
  {
    assert Upto(base, |base.names|) == base;
  }

  /** The first pass: verify, and remember what was read. */
  method VerifyPass(src: Source, decode: Decoder, want: Option<Digest>, budget: nat) returns (sum: Digest, ok: bool)
    modifies src
    ensures ok ==> Verified(sum.of, decode, want)
    ensures src.rewrites >= old(src.rewrites) && src.faults >= old(src.faults)
    ensures src.rewrites == old(src.rewrites) ==> src.content == old(src.content) && (ok ==> sum.of == src.content)
    ensures !ok && src.rewrites == old(src.rewrites) && src.faults == old(src.faults) && budget > |src.content| ==>
      !Verified(src.content, decode, want)
  {
    var hash := new Hasher();
    var read, readable := ReadPass(src, hash, budget);
    sum := hash.Sum();
    ok := readable && decode(read).Some? && (want.None? || sum == want.value);
  }

  /** The second pass: identify the format, from bytes nobody hashes, read again and unpack. */
  method UnpackPass(src: Source, dest: Destination, dir: string, keep: string -> bool, how: Reading, budget: nat)
      returns (sum: Digest, format: nat, ok: bool)
    modifies src, dest
    ensures ok ==>
      && how.decodeAs(format)(sum.of).Some?
      && Unpacked(old(dest.tree), dir, how.decodeAs(format)(sum.of).value, keep) == Some(dest.tree)
    ensures ConfinedChange(dir, old(dest.tree), dest.tree)
    ensures src.rewrites >= old(src.rewrites) && src.faults >= old(src.faults) && dest.faults >= old(dest.faults)
    ensures src.rewrites == old(src.rewrites) ==>
      src.content == old(src.content) && (ok ==> sum.of == src.content && how.identify(src.content) == Some(format))
    ensures
      && !ok && src.rewrites == old(src.rewrites) && src.faults == old(src.faults) && dest.faults == old(dest.faults)
      && budget > |src.content|
      ==> !Unpackable(src.content, old(dest.tree), dir, keep, how)
  {
    hide Unpacked;
    sum, format, ok := Sha([]), 0, false;
    var _, _, unread := src.Read(0);
    var kind := how.identify(src.content);
    if unread || kind.None? { return; }
    format := kind.value;
    var hash := new Hasher();
    var again, streamed := ReadPass(src, hash, budget);
    sum := hash.Sum();
    var entries := how.decodeAs(format)(again);
    if !streamed || entries.None? {
      // What was unpacked before the stream failed is anything the stream looked like.
      var some := *;
      var _ := ExtractEntries(dest, dir, some, keep);
      return;
    }
    ok := ExtractEntries(dest, dir, entries.value, keep);
  }

  /** `first` and `second` are the bytes the two passes read. */
  method Extract(src: Source, dest: Destination, dir: string, keep: string -> bool, want: Option<Digest>,
                 how: Reading, budget: nat)
    returns (ok: bool, ghost first: Bytes, ghost second: Bytes, ghost format: nat)
    modifies src, dest
    // Nothing is created before the verification has passed, and nothing outside `dir` ever.
    ensures !Verified(first, how.decode, want) ==> !ok && dest.tree == old(dest.tree)
    ensures ConfinedChange(dir, old(dest.tree), dest.tree)
    // Success: the bytes extracted are the bytes verified, and they are what was unpacked.
    ensures ok ==>
      && first == second && Verified(second, how.decode, want) && how.decodeAs(format)(second).Some?
      && Unpacked(old(dest.tree)[Clean(dir) := Folder], dir, how.decodeAs(format)(second).value, keep)
         == Some(dest.tree)
    // A file nobody rewrites is extracted exactly if it can be, unless a call fails.
    ensures src.rewrites == old(src.rewrites) && ok ==>
      second == old(src.content) && Extractable(old(src.content), old(dest.tree), dir, keep, want, how)
    ensures
      && src.rewrites == old(src.rewrites) && src.faults == old(src.faults) && dest.faults == old(dest.faults)
      && budget > |src.content| && Extractable(old(src.content), old(dest.tree), dir, keep, want, how)
      ==> ok
  {
    hide Unpacked, Clean, Beneath, Upto, Verified;
    ok, first, second, format := false, [], [], 0;
    var verified, passed := VerifyPass(src, how.decode, want, budget);
    first := verified.of;
    if !passed { return; }

    // The destination itself; whatever lies above it is taken to be there.
    var base := Clean(dir);
    FolderItself(dest.tree, base);
    var made := MakeFolders(dest, dir, base, |base.names|, |base.names|);
    if !made { return; }
    var extracted, kind, unpacked := UnpackPass(src, dest, dir, keep, how, budget);
    second, format := extracted.of, kind;
    ok := unpacked && extracted == verified;
  }

  // ---- Publication --------------------------------------------------------------------

  /** A file that was read back whole, holds the required members, and survives a power cut. */
  predicate Sound(file: Stored<Bytes>, decode: Decoder, check: seq<Entry> -> bool)
  {
    file.synced && decode(file.content).Some? && check(decode(file.content).value)
  }

  function Soundness(decode: Decoder, check: seq<Entry> -> bool): Stored<Bytes> -> bool
  {
    (file: Stored<Bytes>) => Sound(file, decode, check)
  }

  /** `data` is what a writer that is not cut short writes. */
  method WriteVerified(d: Folder<Bytes>, tmp: string, final: string, data: Bytes, decode: Decoder,
      check: seq<Entry> -> bool)
    returns (r: Option<Digest>)
    requires tmp !in d.files && tmp != final
    modifies d
    // At every crash point the final name holds what it held before or a sound archive.
    ensures AtomicAlong(d, old(d.seen), old(d.files), tmp, final, Soundness(decode, check))
    // On success it holds the archive whose digest is returned, and nothing else changed.
    ensures r.Some? ==>
      && final in d.files && Sound(d.files[final], decode, check) && Sha(d.files[final].content) == r.value
      && d.files == old(d.files)[final := d.files[final]]
    // On failure nothing changed, unless the temporary file could not be removed.
    ensures r.None? ==> d.files - {tmp} == old(d.files) && (d.stuck == old(d.stuck) ==> d.files == old(d.files))
    // Unless a call fails, a sound archive is published, and nothing else is.
    ensures d.faults >= old(d.faults)
    ensures d.faults == old(d.faults) ==>
      r == if Sound(Stored(data, true), decode, check) then Some(Sha(data)) else None
    ensures d.faults == old(d.faults) && r.Some? ==> d.files[final].content == data
  {
    hide AtomicAlong, Staging;
    ghost var files0, seen0, sound := d.files, d.seen, Soundness(decode, check);
    Unstaged(d, tmp, final, sound);
    Staged(d, seen0, files0, tmp, final, sound);
    r := None;
    var made := d.Attempt();
    if !made { return; }
    Stage(d, tmp, Stored([], false), final, sound, files0, seen0);
    // The writer may return nil although the tail of the archive never reached the file.
    var whole := d.Attempt();
    var other: Bytes := *;
    var written := if whole then data else other;
    Stage(d, tmp, Stored(written, false), final, sound, files0, seen0);
    var synced := d.Attempt();             // chmod, archive, sync and close
    if synced {
      Stage(d, tmp, Stored(written, true), final, sound, files0, seen0);
      var readable := d.Attempt();         // verification pass and stat
      if readable && decode(written).Some? && check(decode(written).value) {
        var renamed := Install(d, tmp, final, sound, files0, seen0);
        if renamed { return Some(Sha(written)); }
      }
    }
    var _ := Discard(d, tmp, final, sound, files0, seen0);
    Staged(d, seen0, files0, tmp, final, sound);
  }
}
