/** Replacing the credentials file so that a crash at any point leaves the old content whole
    or the new one (credentials.py, `_write_atomically`). The file system keeps for every
    file what is cached and whether that much is on disk, and for every name the entries a
    crash may leave it with: all it has had since the directory was last flushed. */
module AtomicWrite {
  import opened Results

  type Bytes = seq<bv8>
  type Name = string

  /** A file: its cached content, and whether the disk holds exactly that. */
  datatype File = File(cached: Bytes, flushed: bool)

  datatype Disk = Disk(
    files: map<nat, File>,
    names: map<Name, nat>,
    survivors: map<Name, set<Option<nat>>>)

  /** The content a name reads as while the machine runs. */
  function Content(d: Disk, name: Name): Option<Bytes> {
    if name in d.names && d.names[name] in d.files then Some(d.files[d.names[name]].cached) else None
  }

  /** What a crash can leave the name reading as: nothing, a flushed file's content, or anything
      at all of a file that is not flushed. */
  ghost predicate CrashReads(d: Disk, name: Name, content: Option<Bytes>) {
    name in d.survivors && exists entry :: entry in d.survivors[name] && EntryReads(d, entry, content)
  }

  ghost predicate EntryReads(d: Disk, entry: Option<nat>, content: Option<Bytes>) {
    match entry
    case None => content == None
    case Some(file) =>
      content.Some? && (file in d.files && d.files[file].flushed ==> content.value == d.files[file].cached)
  }

  /** Whatever a crash leaves, the name reads as one of these contents, whole. */
  ghost predicate AfterCrash(d: Disk, name: Name, allowed: set<Option<Bytes>>) {
    name in d.survivors && forall content :: CrashReads(d, name, content) ==> content in allowed
  }

  /** A file no entry of this name can lead to, now or after a crash. */
  ghost predicate Apart(d: Disk, name: Name, file: nat) {
    name in d.survivors && Some(file) !in d.survivors[name] && (name in d.names ==> d.names[name] != file)
  }

  function WithEntry(d: Disk, name: Name, entry: Option<nat>): Disk {
    var before := if name in d.survivors then d.survivors[name] else {None};
    d.(names := if entry.Some? then d.names[name := entry.value] else d.names - {name},
       survivors := d.survivors[name := before + {entry}])
  }

  class FileSystem {
    var disk: Disk
    ghost var history: seq<Disk>   // every state a crash could have met

    ghost predicate Valid()
      reads this
    {
      history != [] && history[|history| - 1] == disk
    }

    /** Every state from the given one on leaves the name one of these contents. */
    ghost predicate SafeSince(from: nat, name: Name, allowed: set<Option<Bytes>>)
      reads this
    {
      forall i :: from <= i < |history| ==> AfterCrash(history[i], name, allowed)
    }

    constructor (disk: Disk)
      ensures Valid() && this.disk == disk && history == [disk]
    {
      this.disk := disk;
      history := [disk];
    }

    method Become(next: Disk)
      modifies this
      ensures Valid() && disk == next && history == old(history) + [next]
    {
      disk := next;
      history := history + [next];
    }

    method MakeTemporary(name: Name, file: nat)
      requires Valid() && file !in disk.files
      modifies this
      ensures Valid() && disk == WithEntry(old(disk).(files := old(disk).files[file := File([], false)]), name,
          Some(file))
      ensures history == old(history) + [disk]
    {
      Become(WithEntry(disk.(files := disk.files[file := File([], false)]), name, Some(file)));
    }

    /** Some of the content, all of it when the write goes well. */
    method Write(file: nat, content: Bytes, written: nat)
      requires Valid() && written <= |content|
      modifies this
      ensures Valid() && disk == old(disk).(files := old(disk).files[file := File(content[..written], false)])
      ensures history == old(history) + [disk]
    {
      Become(disk.(files := disk.files[file := File(content[..written], false)]));
    }

    method Flush(file: nat)
      requires Valid() && file in disk.files
      modifies this
      ensures Valid() && disk == old(disk).(files := old(disk).files[file := old(disk).files[file].(flushed := true)])
      ensures history == old(history) + [disk]
    {
      Become(disk.(files := disk.files[file := disk.files[file].(flushed := true)]));
    }

    method Rename(from: Name, to: Name)
      requires Valid() && from in disk.names
      modifies this
      ensures Valid() && disk == WithEntry(WithEntry(old(disk), to, Some(old(disk).names[from])), from, None)
      ensures history == old(history) + [disk]
    {
      Become(WithEntry(WithEntry(disk, to, Some(disk.names[from])), from, None));
    }

    method Unlink(name: Name)
      requires Valid()
      modifies this
      ensures Valid() && disk == WithEntry(old(disk), name, None)
      ensures history == old(history) + [disk]
    {
      Become(WithEntry(disk, name, None));
    }

    method FlushDirectory(name: Name)
      requires Valid()
      modifies this
      ensures Valid() && history == old(history) + [disk]
      ensures disk == old(disk).(survivors := old(disk).survivors[name := {Entry(old(disk), name)}])
    {
      Become(disk.(survivors := disk.survivors[name := {Entry(disk, name)}]));
    }

    /** The temporary file with all of the content flushed to disk, or none at all; the target
        is what it was throughout. */
    method Stage(target: Name, content: Bytes, temporary: Name, file: nat, written: nat, flushes: bool,
                 ghost allowed: set<Option<Bytes>>) returns (staged: bool)
      requires Valid() && AfterCrash(disk, target, allowed)
      requires temporary != target && file !in disk.files && Apart(disk, target, file) && written <= |content|
      modifies this
      ensures Valid() && |history| > |old(history)|
      ensures SafeSince(|old(history)|, target, allowed) && AfterCrash(disk, target, allowed)
      ensures Content(disk, target) == Content(old(disk), target)
      ensures staged == (written == |content| && flushes)
      ensures staged ==> temporary in disk.names && disk.names[temporary] == file
                         && file in disk.files && disk.files[file] == File(content, true)
      ensures !staged ==> temporary !in disk.names
    {
      TemporaryTouched(disk, target, temporary, file, File([], false), Some(file), allowed);
      MakeTemporary(temporary, file);
      FileTouched(disk, target, file, File(content[..written], false), allowed);
      Write(file, content, written);
      if written < |content| || !flushes {
        OtherEntry(disk, target, temporary, None, allowed);
        Unlink(temporary);
        return false;
      }
      assert content[..written] == content;
      FileTouched(disk, target, file, File(content, true), allowed);
      Flush(file);
      return true;
    }

    /** The save. A failed one leaves what the target reads as; a done one makes it the new
        content, for good once the directory is flushed. At every state in between, a crash
        leaves one of the contents it could have left before, or the new one, whole. */
    method WriteAtomically(target: Name, content: Bytes, temporary: Name, file: nat,
                           written: nat, flushes: bool, renames: bool, directoryFlushes: bool,
                           ghost allowed: set<Option<Bytes>>) returns (saved: bool)
      requires Valid() && AfterCrash(disk, target, allowed)
      requires temporary != target && file !in disk.files && Apart(disk, target, file) && written <= |content|
      modifies this
      ensures Valid() && |history| > |old(history)|
      ensures SafeSince(|old(history)|, target, allowed + {Some(content)})
      ensures saved == (written == |content| && flushes && renames)
      ensures saved ==> Content(disk, target) == Some(content)
      ensures saved && directoryFlushes ==> AfterCrash(disk, target, {Some(content)})
      ensures !saved ==> Content(disk, target) == Content(old(disk), target) && AfterCrash(disk, target, allowed)
      ensures temporary !in disk.names
    {
      saved := Stage(target, content, temporary, file, written, flushes, allowed);
      Widens(allowed, Some(content));
      if !saved { return; }
      if !renames {
        OtherEntry(disk, target, temporary, None, allowed);
        Unlink(temporary);
        return false;
      }
      Renamed(disk, target, temporary, file, allowed);
      Rename(temporary, target);
      if directoryFlushes { FlushDirectory(target); }
    }
  }

  /** More contents allowed is no less safe. */
  lemma Widens(allowed: set<Option<Bytes>>, more: Option<Bytes>)
    ensures forall d, name :: AfterCrash(d, name, allowed) ==> AfterCrash(d, name, allowed + {more})
  {
  }

  lemma FileTouched(d: Disk, name: Name, file: nat, to: File, allowed: set<Option<Bytes>>)
    requires AfterCrash(d, name, allowed) && Apart(d, name, file)
    ensures var d' := d.(files := d.files[file := to]);
            AfterCrash(d', name, allowed) && Apart(d', name, file) && (Content(d, name) == Content(d', name))
  {
  }

  lemma OtherEntry(d: Disk, name: Name, other: Name, entry: Option<nat>, allowed: set<Option<Bytes>>)
    requires AfterCrash(d, name, allowed) && other != name
    ensures var d' := WithEntry(d, other, entry);
            AfterCrash(d', name, allowed) && Content(d', name) == Content(d, name)
            && (forall file :: Apart(d, name, file) ==> Apart(d', name, file))
  {
  }

  lemma TemporaryTouched(d: Disk, name: Name, other: Name, file: nat, to: File, entry: Option<nat>,
                         allowed: set<Option<Bytes>>)
    requires AfterCrash(d, name, allowed) && Apart(d, name, file) && other != name
    ensures var d' := WithEntry(d.(files := d.files[file := to]), other, entry);
            AfterCrash(d', name, allowed) && Apart(d', name, file) && Content(d', name) == Content(d, name)
  {
    FileTouched(d, name, file, to, allowed);
    OtherEntry(d.(files := d.files[file := to]), name, other, entry, allowed);
  }

  lemma Renamed(d: Disk, name: Name, temporary: Name, file: nat, allowed: set<Option<Bytes>>)
    requires AfterCrash(d, name, allowed) && temporary != name
    requires temporary in d.names && d.names[temporary] == file && file in d.files && d.files[file].flushed
    ensures var d' := WithEntry(WithEntry(d, name, Some(file)), temporary, None);
            && AfterCrash(d', name, allowed + {Some(d.files[file].cached)})
            && Content(d', name) == Some(d.files[file].cached)
            && Entry(d', name) == Some(file) && temporary !in d'.names
  {
    var d1 := WithEntry(d, name, Some(file));
    assert AfterCrash(d1, name, allowed + {Some(d.files[file].cached)});
    OtherEntry(d1, name, temporary, None, allowed + {Some(d.files[file].cached)});
  }

  function Entry(d: Disk, name: Name): Option<nat> {
    if name in d.names then Some(d.names[name]) else None
  }

  /** A save that renamed before it flushed could be left torn: a crash can find the target
      holding only the beginning of the new content, which is not what it held before either. */
  lemma RenameBeforeFlushTears(d: Disk, temporary: Name, target: Name, content: Bytes, before: Option<Bytes>)
      returns (k: nat)
    requires temporary in d.names && temporary != target && |content| >= 2
    requires d.names[temporary] in d.files && d.files[d.names[temporary]] == File(content, false)
    ensures k < |content| && Some(content[..k]) != before && content[..k] != content
    ensures CrashReads(WithEntry(d, target, Some(d.names[temporary])), target, Some(content[..k]))
  {
    k := if before == Some(content[..0]) then 1 else 0;
    assert |content[..k]| == k;
    var d' := WithEntry(d, target, Some(d.names[temporary]));
    assert Some(d.names[temporary]) in d'.survivors[target];
    assert EntryReads(d', Some(d.names[temporary]), Some(content[..k]));
  }
}
