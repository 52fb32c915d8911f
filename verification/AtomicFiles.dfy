/**
  Replacing a file in one step: write a temporary file beside it, prove it, rename it over
  the final name.  Archives and the master key are both written this way.
*/
module AtomicFiles {

  /** A stored file; content that was not synced can be lost with the power. */
  datatype Stored<T> = Stored(content: T, synced: bool)

  type Files<T> = map<string, Stored<T>>

  /** A directory, and every state it has been in: the points where a crash can hit. */
  class Folder<T(==)> {
    var files: Files<T>
    var seen: set<Files<T>>

    /** How many removals have failed, and how many other calls. */
    ghost var stuck: nat
    ghost var faults: nat

    /** A call that changes no file by itself. */
    method Attempt() returns (ok: bool)
      modifies this`faults
      ensures faults == old(faults) + if ok then 0 else 1
    {
      ok := *;
      if !ok { faults := faults + 1; }
    }

    method Put(name: string, file: Stored<T>)
      modifies this`files, this`seen
      ensures files == old(files)[name := file] && seen == old(seen) + {files}
    {
      files := files[name := file];
      seen := seen + {files};
    }

    method Remove(name: string) returns (ok: bool)
      modifies this`files, this`seen, this`stuck
      ensures files == (if ok then old(files) - {name} else old(files)) && seen == old(seen) + {files}
      ensures stuck == old(stuck) + if ok then 0 else 1
    {
      ok := *;
      if ok { files := files - {name}; } else { stuck := stuck + 1; }
      seen := seen + {files};
    }

    method Rename(from: string, to: string) returns (ok: bool)
      requires from in files && from != to
      modifies this`files, this`seen, this`faults
      ensures files == (if ok then (old(files) - {from})[to := old(files)[from]] else old(files))
      ensures seen == old(seen) + {files}
      ensures faults == old(faults) + if ok then 0 else 1
    {
      ok := Attempt();
      if ok { files := (files - {from})[to := files[from]]; }
      seen := seen + {files};
    }
  }

  /** The file under one name is as it was. */
  predicate SameAt<T(==)>(name: string, a: Files<T>, b: Files<T>)
  {
    (name in a <==> name in b) && (name in a ==> a[name] == b[name])
  }

  /** Apart from the temporary file, only the final name changes, and only to a sound file. */
  ghost predicate Atomic<T(!new)>(files0: Files<T>, files: Files<T>, tmp: string, final: string,
      sound: Stored<T> -> bool)
  {
    && files - {tmp, final} == files0 - {tmp, final}
    && (SameAt(final, files0, files) || (final in files && sound(files[final])))
  }

  ghost predicate AtomicAlong<T(!new)>(d: Folder<T>, seen0: set<Files<T>>, files0: Files<T>, tmp: string,
      final: string, sound: Stored<T> -> bool)
    reads d`files, d`seen
  {
    seen0 <= d.seen && forall s | s in d.seen && s !in seen0 :: Atomic(files0, s, tmp, final, sound)
  }

  /** The temporary file is being worked on, and nothing else has changed. */
  ghost predicate Staging<T(!new)>(d: Folder<T>, seen0: set<Files<T>>, files0: Files<T>, tmp: string, final: string,
      sound: Stored<T> -> bool)
    reads d`files, d`seen
  {
    tmp !in files0 && tmp != final && d.files - {tmp} == files0 && AtomicAlong(d, seen0, files0, tmp, final, sound)
  }

  lemma Unstaged<T(!new)>(d: Folder<T>, tmp: string, final: string, sound: Stored<T> -> bool)
    requires tmp !in d.files && tmp != final
    ensures Staging(d, d.seen, d.files, tmp, final, sound)
  {
  }

  lemma Staged<T(!new)>(d: Folder<T>, seen0: set<Files<T>>, files0: Files<T>, tmp: string, final: string,
      sound: Stored<T> -> bool)
    ensures Staging(d, seen0, files0, tmp, final, sound) ==>
      AtomicAlong(d, seen0, files0, tmp, final, sound) && d.files - {tmp} == files0
  {
  }

  lemma TemporaryIsAtomic<T(!new)>(files0: Files<T>, files: Files<T>, tmp: string, final: string,
      sound: Stored<T> -> bool)
    requires tmp !in files0 && tmp != final && files - {tmp} == files0
    ensures Atomic(files0, files, tmp, final, sound)
  {
    assert files - {tmp, final} == (files - {tmp}) - {final} == files0 - {tmp, final};
    assert final in files <==> final in files - {tmp};
  }

  /** Writing the temporary file, whatever reaches it. */
  method Stage<T(!new)>(d: Folder<T>, tmp: string, file: Stored<T>, ghost final: string, ghost sound: Stored<T> -> bool,
                        ghost files0: Files<T>, ghost seen0: set<Files<T>>)
    requires Staging(d, seen0, files0, tmp, final, sound)
    modifies d`files, d`seen
    ensures Staging(d, seen0, files0, tmp, final, sound)
    ensures tmp in d.files && d.files[tmp] == file
  {
    d.Put(tmp, file);
    assert d.files - {tmp} == old(d.files) - {tmp};
    TemporaryIsAtomic(files0, d.files, tmp, final, sound);
  }

  method Discard<T(!new)>(d: Folder<T>, tmp: string, ghost final: string, ghost sound: Stored<T> -> bool,
                          ghost files0: Files<T>, ghost seen0: set<Files<T>>) returns (removed: bool)
    requires Staging(d, seen0, files0, tmp, final, sound)
    modifies d`files, d`seen, d`stuck
    ensures Staging(d, seen0, files0, tmp, final, sound)
    ensures removed ==> d.files == files0
    ensures d.stuck == old(d.stuck) + if removed then 0 else 1
  {
    removed := d.Remove(tmp);
    assert d.files - {tmp} == old(d.files) - {tmp};
    TemporaryIsAtomic(files0, d.files, tmp, final, sound);
  }

  /** The one step that changes the final name. */
  method Install<T(!new)>(d: Folder<T>, tmp: string, final: string, ghost sound: Stored<T> -> bool,
                          ghost files0: Files<T>, ghost seen0: set<Files<T>>) returns (ok: bool)
    requires Staging(d, seen0, files0, tmp, final, sound) && tmp in d.files && sound(d.files[tmp])
    modifies d`files, d`seen, d`faults
    ensures AtomicAlong(d, seen0, files0, tmp, final, sound)
    ensures d.faults == old(d.faults) + if ok then 0 else 1
    ensures d.files == if ok then files0[final := old(d.files)[tmp]] else old(d.files)
  {
    ok := d.Rename(tmp, final);
    assert files0[final := old(d.files)[tmp]] - {tmp, final} == files0 - {tmp, final};
    TemporaryIsAtomic(files0, old(d.files), tmp, final, sound);
  }
}
