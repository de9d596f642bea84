/**
  Rotating the log of the service: numbered backups shift up by one, and only the oldest is lost.
 */
module LogRotation {
  import opened Common

  // The names beside the log: its backups, in plain or zero-padded digits, and everything else.
  datatype Name = Log | Backup(index: nat, padding: nat) | Unrelated(name: string)

  type Directory = map<Name, string>

  function Find(d: Directory, name: Name): Option<string> {
    if name in d then Some(d[name]) else None
  }

  function Max(a: int, b: int): int { if a < b then b else a }

  predicate IsBeyond(name: Name, retained: nat) {
    name.Backup? && name.index > retained
  }

  // The log exists and has reached the size to be rotated.
  predicate IsDue(d: Directory, maxBytes: int) {
    Log in d && |d[Log]| >= Max(0, maxBytes)
  }

  // What is found under a name once the log has been rotated.
  function Rotated(d: Directory, maxBytes: int, retained: nat, name: Name): Option<string> {
    if IsBeyond(name, retained) then None
    else if !IsDue(d, maxBytes) then Find(d, name)
    else
      match name
      case Log => None
      case Backup(index, padding) =>
        if padding > 0 || index == 0 then Find(d, name)
        else if index == 1 then Find(d, Log)
        else Find(d, Backup(index - 1, 0))
      case Unrelated(_) => Find(d, name)
  }

  class LogDirectory {
    var files: Directory

    constructor (files: Directory)
      ensures this.files == files
    {
      this.files := files;
    }

    method Unlink(name: Name)
      modifies this
      ensures forall n :: Find(files, n) == if n == name then None else Find(old(files), n)
    {
      files := files - {name};
    }

    // Renaming replaces whatever is at the target.
    method Replace(source: Name, target: Name)
      requires source in files && source != target
      modifies this
      ensures forall n :: Find(files, n) == if n == source then None else if n == target then Some(old(files)[source])
                                            else Find(old(files), n)
    {
      files := files[target := files[source]] - {source};
    }

    method RemoveBeyond(retained: nat)
      modifies this
      ensures forall name :: Find(files, name) == if IsBeyond(name, retained) then None else Find(old(files), name)
    {
      var pending := files.Keys;
      while pending != {}
        invariant forall name :: Find(files, name) == if IsBeyond(name, retained) && name !in pending then None
                                                      else Find(old(files), name)
      {
        ghost var some := Pick(pending);
        assert some in pending;
        var candidate: Name :| candidate in pending;
        if IsBeyond(candidate, retained) { Unlink(candidate); }
        pending := pending - {candidate};
      }
    }

    /**
      Backup i + 1 becomes what backup i was, backup 1 becomes the log, and only the backups at
      and beyond the number retained are lost.
     */
    method Rotate(maxBytes: int, backupCount: int)
      modifies this
      ensures forall name :: Find(files, name) == Rotated(old(files), maxBytes, Max(0, backupCount), name)
    {
      var retained := Max(0, backupCount);
      RemoveBeyond(retained);
      assert Find(files, Log) == Find(old(files), Log);
      if Log !in files || |files[Log]| < Max(0, maxBytes) { return; }
      if retained == 0 {
        Unlink(Log);
        return;
      }
      Unlink(Backup(retained, 0));
      var index := retained - 1;
      while index > 0
        invariant 0 <= index < retained
        invariant forall name :: Find(files, name) == Shifted(old(files), retained, index, name)
      {
        var source := Backup(index, 0);
        assert Find(files, source) == Find(old(files), source) && Find(files, Backup(index + 1, 0)) == None;
        if source in files { Replace(source, Backup(index + 1, 0)); }
        index := index - 1;
      }
      assert Find(files, Log) == Find(old(files), Log);
      Replace(Log, Backup(1, 0));
    }
  }

  // What is found once the backups above index have been shifted.
  function Shifted(d: Directory, retained: nat, index: nat, name: Name): Option<string> {
    if IsBeyond(name, retained) || name == Backup(index + 1, 0) then None
    else if name.Backup? && name.padding == 0 && name.index > index + 1 then Find(d, Backup(name.index - 1, 0))
    else Find(d, name)
  }

  // Nothing but the oldest backup, and what lies beyond it, is ever lost.
  lemma {:induction false} OnlyTheOldestIsLost(d: Directory, maxBytes: int, retained: nat, name: Name)
    requires retained > 0 && name in d && !IsBeyond(name, retained) && name != Backup(retained, 0)
    ensures exists other :: Rotated(d, maxBytes, retained, other) == Some(d[name])
  {
    var other :=
      if !IsDue(d, maxBytes) then name
      else match name
           case Log => Backup(1, 0)
           case Backup(index, padding) => if padding > 0 || index == 0 then name else Backup(index + 1, 0)
           case Unrelated(_) => name;
    assert Rotated(d, maxBytes, retained, other) == Some(d[name]);
  }
}
