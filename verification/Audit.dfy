/** The audit writer: one line per entry, a directory per day, numbered files of limited size. */
module Audit {
  import opened AuditState
  import opened Bytes
  import opened Wrappers

  /** What is done besides looking at files and appending to them. */
  datatype Action = MakeDir(day: Day) | CloseFile(file: Key)

  datatype Stat = Missing | Size(bytes: nat) | Unreadable

  /** The audit directory. Any operation may fail; a failed write may leave a part of the data. */
  class Directory {
    var files: Files
    /** How many operations have failed. */
    ghost var failures: nat
    /** What was done, in order. */
    ghost var actions: seq<Action>

    /** An operation that succeeded exactly if nothing it did failed. */
    twostate predicate Tells(ok: bool)
      reads this
    {
      if ok then failures == old(failures) else failures > old(failures)
    }

    /** Whether an operation that changes no content succeeds. */
    method Attempt(ghost action: Action) returns (ok: bool)
      modifies this`failures, this`actions
      ensures Tells(ok)
      ensures actions == if ok then old(actions) + [action] else old(actions)
    {
      ok := *;
      if ok {
        actions := actions + [action];
      } else {
        failures := failures + 1;
      }
    }

    method Look(key: Key) returns (s: Stat)
      modifies this`failures
      ensures s.Missing? <==> key !in files
      ensures s.Size? ==> key in files && s.bytes == |files[key]|
      ensures Tells(!s.Unreadable?)
    {
      var readable: bool := *;
      if key !in files {
        return Missing;
      }
      if !readable {
        failures := failures + 1;
        return Unreadable;
      }
      s := Size(|files[key]|);
    }

    /** Opens for appending; a missing file is created. */
    method Open(key: Key) returns (ok: bool)
      modifies this
      ensures files == if ok then old(files)[key := ContentOf(old(files), key)] else old(files)
      ensures Tells(ok) && actions == old(actions)
    {
      ok := *;
      if ok {
        files := files[key := ContentOf(files, key)];
      } else {
        failures := failures + 1;
      }
    }

    method Append(key: Key, data: seq<byte>) returns (ok: bool)
      requires key in files
      modifies this
      ensures key in files && files == old(files)[key := files[key]]
      ensures old(files)[key] <= files[key] <= old(files)[key] + data
      ensures ok ==> files[key] == old(files)[key] + data
      ensures Tells(ok) && actions == old(actions)
    {
      var n: nat :| n <= |data|;
      files := files[key := files[key] + data[..n]];
      ok := n == |data|;
      if ok {
        assert data[..n] == data;
      } else {
        failures := failures + 1;
      }
    }
  }

  /** What a write does first: unless the open file takes the entry it is closed, and the day's directory is made. */
  ghost function Before(s: State, limit: nat, today: Day, incoming: nat): seq<Action>
    requires s.Valid()
  {
    if s.open && s.date == Some(today) && s.size + incoming <= limit then []
    else (if s.open then [CloseFile((s.date.value, s.index))] else []) + [MakeDir(today)]
  }

  class Writer {
    const directory: Directory
    const limit: nat
    var date: Option<Day>
    var index: nat
    var size: nat
    var open: bool
    var broken: bool

    ghost function View(): State
      reads this, directory
    {
      State(date, index, size, open, broken, directory.files)
    }

    ghost predicate Valid()
      reads this, directory
    {
      View().Valid()
    }

    constructor (directory: Directory, maxFileSizeBytes: int)
      ensures Valid() && this.directory == directory && View() == State.Initial(directory.files)
      ensures limit == if maxFileSizeBytes <= 0 then 52_428_800 else maxFileSizeBytes
    {
      this.directory := directory;
      limit := if maxFileSizeBytes < 1 then 50 * 1024 * 1024 else maxFileSizeBytes;
      date, index, size, open, broken := None, 0, 0, false, false;
    }

    /** Closes the open file, unless its buffer is broken; it fails only if that is, or if closing fails. */
    method Close() returns (ok: bool)
      requires Valid()
      modifies this, directory`failures, directory`actions
      ensures Valid() && Closed(old(View()), View(), ok)
      ensures ok ==>
                directory.actions == old(directory.actions) + if old(open) then [CloseFile((date.value, index))] else []
      ensures if old(open && broken) then directory.failures == old(directory.failures) else directory.Tells(ok)
    {
      if !open {
        return true;
      }
      if broken {
        return false;
      }
      ok := directory.Attempt(CloseFile((date.value, index)));
      open := false;
    }

    /** Leaves a file open that has room for the entry, or that the entry is the first of. */
    method EnsureFile(today: Day, incoming: nat) returns (ok: bool)
      requires Valid()
      modifies this, directory
      ensures Valid()
      ensures old(open && broken) ==> View() == old(View())
      ensures !old(open && broken) && ok ==>
                var key := (today, TargetIndex(old(View()), limit, today, incoming));
                && date == Some(today) && index == key.1 && open && !broken
                && directory.files == old(directory.files)[key := ContentOf(old(directory.files), key)]
      ensures !old(open && broken) && !ok ==> NotOpened(old(View()), View(), limit, today, incoming)
      ensures ok ==> directory.actions == old(directory.actions) + Before(old(View()), limit, today, incoming)
      ensures if old(open && broken) then directory.failures == old(directory.failures) else directory.Tells(ok)
    {
      if open && date == Some(today) && size + incoming <= limit {
        return true;
      }
      ok := Close();
      if !ok {
        return;
      }
      if date != Some(today) {
        date := Some(today);
        index := 0;
      }
      ok := directory.Attempt(MakeDir(today));
      if !ok {
        return;
      }
      ok := Search(today, incoming);
    }

    method Search(today: Day, incoming: nat) returns (ok: bool)
      requires Valid() && !open && date == Some(today)
      modifies this, directory
      ensures Valid() && date == old(date) && directory.Tells(ok) && directory.actions == old(directory.actions)
      ensures old(index) <= index <= FirstFit(old(directory.files), today, old(index), incoming, limit)
      ensures !ok ==> !open && directory.files == old(directory.files)
      ensures ok ==> index == FirstFit(old(directory.files), today, old(index), incoming, limit) && open && !broken
      ensures ok ==>
                var key := (today, index);
                directory.files == old(directory.files)[key := ContentOf(old(directory.files), key)]
    {
      while true
        invariant Valid() && !open && date == Some(today) && directory.files == old(directory.files)
        invariant index >= old(index)
        invariant directory.failures == old(directory.failures) && directory.actions == old(directory.actions)
        invariant FirstFit(directory.files, today, index, incoming, limit) ==
                  FirstFit(old(directory.files), today, old(index), incoming, limit)
        decreases |Later(directory.files, today, index)|
      {
        ghost var from := index;
        index := index + 1;
        var stat := directory.Look((today, index));
        if stat.Unreadable? {
          return false;
        }
        if stat.Missing? || stat.bytes + incoming <= limit {
          ok := directory.Open((today, index));
          if ok {
            open, broken, size := true, false, if stat.Missing? then 0 else stat.bytes;
          }
          return;
        }
        PassingOne(directory.files, today, from);
      }
    }

    /**
     * Appends the entry to the file that takes it; a failure at the file breaks the writer. Unless it is broken, it
     * fails only if a file operation does.
     */
    method Write(today: Day, data: seq<byte>) returns (ok: bool)
      requires Valid()
      modifies this, directory
      ensures Valid() && Wrote(old(View()), View(), limit, today, data, ok)
      ensures ok ==> directory.actions == old(directory.actions) + Before(old(View()), limit, today, |data|)
      ensures if old(open && broken) then directory.failures == old(directory.failures) else directory.Tells(ok)
    {
      ok := EnsureFile(today, |data|);
      if !ok {
        return;
      }
      if broken {
        return false;
      }
      ok := directory.Append((today, index), data);
      if ok {
        size := size + |data|;
      } else {
        var counted: nat :| counted <= |data|;
        size := size + counted;
        broken := true;
      }
    }
  }
}
