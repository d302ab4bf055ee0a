/**
 * Saving and restoring the configuration file: backup, temporary file, rename, and writing in place when the file is
 * bind-mounted and cannot be renamed over. Every file operation may fail, writes may stop half way, and the disk
 * records every content it ever had, so that what holds "at every step" can be stated.
 */
module Store {
  import opened Bytes
  import opened Wrappers

  type Text = seq<byte>
  type Path = seq<string>
  type Files = map<Path, Text>

  /** The two contents agree on every path but `p`. */
  ghost predicate SameExcept(a: Files, b: Files, p: Path) {
    forall q :: q != p ==> (q in a <==> q in b) && (q in a ==> b[q] == a[q])
  }

  datatype FileError = NotExist | Busy | Failed

  /**
   * What is done to files besides writing them. A sync makes the text the file has then outlive a crash; a removal is
   * listed whether it works or not.
   */
  datatype Action =
    | MakeDir(dir: Path)
    | Protect(file: Path)
    | Sync(file: Path, text: Text)
    | Close(file: Path)
    | Move(from: Path, to: Path)
    | Remove(file: Path)

  class Disk {
    /** Bind-mounted files, which cannot be moved, removed or renamed over. */
    const mounted: set<Path>
    var files: Files
    ghost var trace: seq<Files>
    /** How many operations have failed: not a read of a missing file, a rename onto a mounted one, or a removal. */
    ghost var failures: nat
    /** What was done, in order. */
    ghost var actions: seq<Action>

    /** An operation that succeeded only if nothing it did failed. */
    twostate predicate Tells(ok: bool)
      reads this
    {
      if ok then failures == old(failures) else failures > old(failures)
    }

    ghost predicate Valid()
      reads this
    {
      |trace| > 0 && trace[|trace| - 1] == files && mounted <= files.Keys
    }

    /** What happened since a moment: the trace grew, by states that differ from `before` at most at `p`. */
    ghost predicate OnlyTouched(p: Path, before: Files, earlier: seq<Files>)
      reads this
    {
      && Valid() && earlier <= trace
      && forall k :: |earlier| <= k < |trace| ==> SameExcept(before, trace[k], p)
    }

    method ReadFile(p: Path) returns (r: Result<Text, FileError>)
      modifies this`failures
      ensures r.Ok? ==> p in files && r.value == files[p]
      ensures r == Err(NotExist) <==> p !in files
      ensures Tells(r.Ok? || r == Err(NotExist))
    {
      var readable: bool := *;
      if p !in files {
        return Err(NotExist);
      }
      if !readable {
        failures := failures + 1;
        return Err(Failed);
      }
      r := Ok(files[p]);
    }

    /** Operations that can fail but never change a file's content. */
    method Attempt(ghost action: Action) returns (ok: bool)
      modifies this`failures, this`actions
      ensures Tells(ok)
      ensures actions == if ok then old(actions) + [action] else old(actions)
    {
      ok := *;
      if ok {
        actions := actions + [action];
      } else {
        failures := failures + 1;
      }
    }

    /** What follows writing to a file. */
    method SyncAndClose(p: Path) returns (ok: bool)
      requires p in files
      modifies this`failures, this`actions
      ensures Tells(ok)
      ensures ok ==> actions == old(actions) + [Sync(p, files[p]), Close(p)]
    {
      ok := Attempt(Sync(p, files[p]));
      if ok {
        ok := Attempt(Close(p));
      }
    }

    /** Since then `p` has existed in every state, holding a part of `data` from the front. */
    ghost predicate HoldsPrefix(p: Path, data: Text, earlier: seq<Files>)
      reads this
    {
      forall k :: |earlier| <= k < |trace| ==> p in trace[k] && trace[k][p] <= data
    }

    method Put(p: Path, text: Text)
      requires Valid()
      modifies this
      ensures files == old(files)[p := text] && OnlyTouched(p, old(files), old(trace))
      ensures HoldsPrefix(p, text, old(trace)) && failures == old(failures) && actions == old(actions)
    {
      files := files[p := text];
      trace := trace + [files];
    }

    /** Writing to an open, empty file: the data arrives byte by byte, and a prefix may be all that does. */
    method Append(p: Path, data: Text) returns (ok: bool)
      requires Valid() && p in files && files[p] == []
      modifies this
      ensures OnlyTouched(p, old(files), old(trace)) && p in files && HoldsPrefix(p, data, old(trace))
      ensures ok ==> files == old(files)[p := data]
      ensures Tells(ok) && actions == old(actions)
    {
      var n: nat :| n <= |data|;
      for i := 0 to n
        invariant failures == old(failures) && actions == old(actions)
        invariant OnlyTouched(p, old(files), old(trace)) && HoldsPrefix(p, data, old(trace))
        invariant files == old(files)[p := data[..i]]
      {
        Put(p, data[..i + 1]);
      }
      ok := n == |data|;
      if ok {
        assert data[..n] == data;
      } else {
        failures := failures + 1;
      }
    }

    /** Opens a file for writing, cutting it to nothing; it has to exist unless it may be created. */
    method OpenTruncated(p: Path, create: bool) returns (ok: bool)
      requires Valid()
      modifies this
      ensures OnlyTouched(p, old(files), old(trace)) && HoldsPrefix(p, [], old(trace))
      ensures ok ==> files == old(files)[p := []]
      ensures !ok ==> files == old(files) && trace == old(trace)
      ensures if create || p in old(files) then Tells(ok) else !ok && failures == old(failures)
      ensures actions == old(actions)
    {
      if !create && p !in files {
        return false;
      }
      ok := *;
      if ok {
        Put(p, []);
      } else {
        failures := failures + 1;
      }
    }

    method WriteFile(p: Path, data: Text) returns (ok: bool)
      requires Valid()
      modifies this
      ensures OnlyTouched(p, old(files), old(trace))
      ensures ok ==> files == old(files)[p := data] && actions == old(actions) + [Close(p)]
      ensures Tells(ok)
    {
      ok := OpenTruncated(p, true);
      if ok {
        ok := Append(p, data);
      }
      if ok {
        ok := Attempt(Close(p));
      }
    }

    /** A new empty file under a name no file has; `candidate` is the name the random suffix makes. */
    method CreateTemp(candidate: Path) returns (ok: bool)
      requires Valid()
      modifies this
      ensures OnlyTouched(candidate, old(files), old(trace))
      ensures ok ==> candidate !in old(files) && files == old(files)[candidate := []]
      ensures !ok ==> files == old(files)
      ensures Tells(ok) && actions == old(actions)
    {
      ok := *;
      ok := ok && candidate !in files;
      if ok {
        Put(candidate, []);
      } else {
        failures := failures + 1;
      }
    }

    method Remove(p: Path)
      requires Valid()
      modifies this
      ensures (files == old(files) || files == old(files) - {p}) && failures == old(failures)
      ensures actions == old(actions) + [Action.Remove(p)]
      ensures OnlyTouched(p, old(files), old(trace))
    {
      var removed: bool := *;
      actions := actions + [Action.Remove(p)];
      if removed && p !in mounted {
        files := files - {p};
        trace := trace + [files];
      }
    }

    /** The target is replaced at once, or nothing changes. */
    method Rename(from: Path, to: Path) returns (error: Option<FileError>)
      requires Valid() && from in files && from != to
      modifies this
      ensures Valid() && (error.Some? ==> files == old(files) && trace == old(trace))
      ensures error == Some(Busy) ==> to in mounted
      ensures error.None? ==>
                files == old(files)[to := old(files)[from]] - {from} && trace == old(trace) + [files]
      ensures Tells(error.None? || error == Some(Busy))
      ensures actions == if error.None? then old(actions) + [Move(from, to)] else old(actions)
    {
      error :| error in {None, Some(Busy), Some(Failed)} && (error == Some(Busy) ==> to in mounted)
               && (error.None? ==> from !in mounted);
      if error == Some(Failed) {
        failures := failures + 1;
      }
      if error.None? {
        files := files[to := files[from]] - {from};
        trace := trace + [files];
        actions := actions + [Move(from, to)];
      }
    }
  }

  // ----- Backup names

  /** filepath.Clean on a relative path, as a stack of segments. */
  function Clean(segments: seq<string>): seq<string> {
    if segments == [] then []
    else
      var rest, last := Clean(segments[..|segments| - 1]), segments[|segments| - 1];
      if last == "" || last == "." then rest
      else if last == ".." && rest != [] && rest[|rest| - 1] != ".." then rest[..|rest| - 1]
      else rest + [last]
  }

  /** A cleaned path has no empty or `.` segments and goes up only at the front. */
  ghost predicate IsClean(path: seq<string>) {
    && (forall i :: 0 <= i < |path| ==> path[i] != "" && path[i] != ".")
    && (forall i, j :: 0 <= i < j < |path| && path[j] == ".." ==> path[i] == "..")
  }

  lemma {:induction false} CleanIsClean(segments: seq<string>)
    ensures IsClean(Clean(segments))
  {
    if segments != [] {
      CleanIsClean(segments[..|segments| - 1]);
    }
  }

  /** Cleaning a clean path changes nothing. */
  lemma {:induction false} CleanKeepsClean(path: seq<string>)
    requires IsClean(path)
    ensures Clean(path) == path
  {
    if path != [] {
      var n := |path| - 1;
      CleanKeepsClean(path[..n]);
      assert path == path[..n] + [path[n]];
      assert n > 0 && path[n] == ".." ==> path[..n][n - 1] == path[n - 1];
    }
  }

  /** Where one segment leads from a directory. */
  function Go(at: Path, segment: string): Path {
    if segment == "" || segment == "." then at
    else if segment == ".." then if at == [] then [] else at[..|at| - 1]
    else at + [segment]
  }

  /** Where a path leads from a directory, one segment after the other. */
  function Walk(dir: Path, segments: seq<string>): Path {
    if segments == [] then dir else Go(Walk(dir, segments[..|segments| - 1]), segments[|segments| - 1])
  }

  lemma WalkFurther(dir: Path, segments: seq<string>, last: string)
    ensures Walk(dir, segments + [last]) == Go(Walk(dir, segments), last)
  {
    assert (segments + [last])[..|segments|] == segments;
  }

  /** Going up undoes the last step down. */
  lemma WalkBack(dir: Path, path: seq<string>)
    requires IsClean(path) && path != [] && path[|path| - 1] != ".."
    ensures Walk(dir, path[..|path| - 1]) == Go(Walk(dir, path), "..")
  {
    var at, last := Walk(dir, path[..|path| - 1]), path[|path| - 1];
    assert (at + [last])[..|at|] == at;
  }

  /** A cleaned path leads where the path leads, from any directory. */
  lemma {:induction false} CleanKeepsMeaning(dir: Path, segments: seq<string>)
    ensures Walk(dir, Clean(segments)) == Walk(dir, segments)
  {
    if segments != [] {
      var rest, last := Clean(segments[..|segments| - 1]), segments[|segments| - 1];
      CleanKeepsMeaning(dir, segments[..|segments| - 1]);
      if last == ".." && rest != [] && rest[|rest| - 1] != ".." {
        CleanIsClean(segments[..|segments| - 1]);
        WalkBack(dir, rest);
      } else {
        WalkFurther(dir, rest, last);
      }
    }
  }

  lemma {:induction false} WalkDown(dir: Path, segments: seq<string>)
    requires forall i :: 0 <= i < |segments| ==> segments[i] != "" && segments[i] != "." && segments[i] != ".."
    ensures Walk(dir, segments) == dir + segments
  {
    if segments != [] {
      WalkDown(dir, segments[..|segments| - 1]);
      assert segments == segments[..|segments| - 1] + [segments[|segments| - 1]];
    }
  }

  /** The check of LoadBackup; it also refuses a first segment that merely begins with two dots. */
  predicate ValidBackupId(absolute: bool, segments: seq<string>) {
    var clean := Clean(segments);
    clean != [] && !absolute && !(".." <= clean[0])
  }

  /** An accepted backup id leads to something strictly inside the backup directory, under its cleaned name. */
  lemma AcceptedIdsStayInside(backupDir: Path, segments: seq<string>)
    requires ValidBackupId(false, segments)
    ensures var path := backupDir + Clean(segments);
            && backupDir < path && path == Walk(backupDir, segments)
            && forall i :: |backupDir| <= i < |path| ==> path[i] != ".." && path[i] != "" && path[i] != "."
  {
    CleanIsClean(segments);
    var clean := Clean(segments);
    assert clean[0] != "..";
    CleanKeepsMeaning(backupDir, segments);
    WalkDown(backupDir, clean);
  }

  /** The two clock readings that name a backup. */
  datatype Moment = Moment(date: string, time: string)

  function BackupId(now: Moment): seq<string> {
    [now.date, now.time + ".yaml"]
  }

  /** The name a save gives its backup is an id that LoadBackup accepts and reads back under the same name. */
  lemma BackupIdIsValid(now: Moment)
    requires now.date != "" && now.date[0] != '.'
    ensures ValidBackupId(false, BackupId(now)) && Clean(BackupId(now)) == BackupId(now)
  {
    var name := now.time + ".yaml";
    assert name[|name| - 1] == 'l';
    assert name != "." && name != "..";
    assert IsClean(BackupId(now));
    CleanKeepsClean(BackupId(now));
  }

  // ----- What a save does to the files

  function BackupName(backupDir: Path, now: Moment): (name: Path)
    ensures backupDir < name
  {
    backupDir + BackupId(now)
  }

  function TempName(path: Path, suffix: string): (temp: Path)
    requires path != []
    ensures |temp| == |path| && path[..|path| - 1] <= temp
  {
    path[..|path| - 1] + [".config-" + suffix + ".tmp"]
  }

  /** The configuration file lies outside the backup directory and is not named like one of its temporary files. */
  ghost predicate WellPlaced(path: Path, backupDir: Path) {
    && path != [] && !(backupDir <= path)
    && forall suffix: string :: path != TempName(path, suffix)
  }

  /** The old text can be read back: from the configuration file, or from a backup. */
  ghost predicate Recoverable(files: Files, path: Path, backupDir: Path, text: Text) {
    || (path in files && files[path] == text)
    || exists name :: backupDir < name && name in files && files[name] == text
  }

  /** Only the three files a save works on differ. */
  ghost predicate OthersKept(before: Files, after: Files, path: Path, name: Path, temp: Path) {
    forall q :: q != path && q != name && q != temp ==>
      (q in before <==> q in after) && (q in before ==> after[q] == before[q])
  }

  /** The file is as it was. */
  ghost predicate Untouched(before: Files, after: Files, path: Path) {
    (path in before <==> path in after) && (path in before ==> after[path] == before[path])
  }

  /** The old text if there is one worth a backup. */
  ghost predicate HasText(files: Files, path: Path) {
    path in files && files[path] != []
  }

  /** A save in progress: the files before it, and what it works on. */
  datatype Saving = Saving(before: Files, path: Path, data: Text, name: Path, temp: Path, mounted: bool) {
    ghost predicate Valid() {
      name != path && temp != path && name != temp
    }

    /** The old text, if it needs one, is in the backup. */
    ghost predicate BackedUp(state: Files) {
      HasText(before, path) ==> name in state && state[name] == before[path]
    }

    /**
     * A state on the way: the old text is in the file or in its backup; the file holds the old text or the new one,
     * and a part of the new one only if it is bind-mounted; nothing else is touched.
     */
    ghost predicate Underway(state: Files) {
      && OthersKept(before, state, path, name, temp)
      && (Untouched(before, state, path) || (BackedUp(state) && Replaced(state)))
    }

    ghost predicate Replaced(state: Files) {
      path in state && if mounted then state[path] <= data else state[path] == data
    }

    ghost predicate AllUnderway(earlier: seq<Files>, trace: seq<Files>) {
      earlier <= trace && forall k :: |earlier| <= k < |trace| ==> Underway(trace[k])
    }

    /** Work on the temporary file, or on the backup while the file is as it was, is on the way. */
    lemma AsideIsUnderway(earlier: seq<Files>, middle: seq<Files>, trace: seq<Files>, state: Files, p: Path)
      requires Valid() && AllUnderway(earlier, middle) && Underway(state)
      requires p == temp || (p == name && Untouched(before, state, path))
      requires middle <= trace && forall k :: |middle| <= k < |trace| ==> SameExcept(state, trace[k], p)
      ensures AllUnderway(earlier, trace)
    {
    }

    /** So is work on a bind-mounted file once the backup is there. */
    lemma InPlaceIsUnderway(earlier: seq<Files>, middle: seq<Files>, trace: seq<Files>, state: Files)
      requires Valid() && AllUnderway(earlier, middle) && Underway(state) && BackedUp(state) && mounted
      requires middle <= trace && forall k :: |middle| <= k < |trace| ==> SameExcept(state, trace[k], path)
      requires forall k :: |middle| <= k < |trace| ==> path in trace[k] && trace[k][path] <= data
      ensures AllUnderway(earlier, trace)
    {
    }
  }

  /** What a successful save of `data` did: the file replaced, a non-empty old text backed up, the rest kept. */
  ghost predicate Saved(before: Files, after: Files, path: Path, data: Text, name: Path, temp: Path) {
    && OthersKept(before, after, path, name, temp)
    && path in after && after[path] == data
    && if HasText(before, path) then name in after && after[name] == before[path] else Untouched(before, after, name)
  }

  /** Saving and then restoring the backup gives the old text byte for byte, with the newer text in a backup. */
  lemma RestoreUndoesSave(f0: Files, f1: Files, f2: Files, path: Path, backupDir: Path, data: Text,
                          first: Moment, second: Moment, suffix1: string, suffix2: string)
    requires WellPlaced(path, backupDir) && HasText(f0, path) && data != []
    requires Saved(f0, f1, path, data, BackupName(backupDir, first), TempName(path, suffix1))
    requires var text := f1[BackupName(backupDir, first)];
             Saved(f1, f2, path, text, BackupName(backupDir, second), TempName(path, suffix2))
    ensures f2[path] == f0[path]
    ensures BackupName(backupDir, second) in f2 && f2[BackupName(backupDir, second)] == data
    ensures first != second ==> BackupName(backupDir, first) in f2 && f2[BackupName(backupDir, first)] == f0[path]
  {
    DifferentNames(path, backupDir, first, second, suffix2);
  }

  lemma DifferentNames(path: Path, backupDir: Path, first: Moment, second: Moment, suffix: string)
    requires WellPlaced(path, backupDir)
    ensures BackupName(backupDir, first) !in {path, TempName(path, suffix)} && TempName(path, suffix) != path
    ensures first != second ==> BackupName(backupDir, first) != BackupName(backupDir, second)
  {
    var a, b := BackupName(backupDir, first), BackupName(backupDir, second);
    if a == b {
      assert a[|backupDir|] == first.date && b[|backupDir|] == second.date;
      var s, t := first.time + ".yaml", second.time + ".yaml";
      assert a[|backupDir| + 1] == s && b[|backupDir| + 1] == t;
      assert first.time == s[..|s| - 5] && second.time == t[..|t| - 5];
    }
  }

  datatype SaveRecord = SaveRecord(now: Moment, suffix: string, data: Text)

  /** Successive successful saves, each of a non-empty text, no two at the same moment. */
  ghost predicate IsSaveRun(states: seq<Files>, saves: seq<SaveRecord>, path: Path, backupDir: Path)
    requires path != []
  {
    && |states| == |saves| + 1
    && (forall i :: 0 <= i < |saves| ==>
          && saves[i].data != []
          && Saved(states[i], states[i + 1], path, saves[i].data,
                   BackupName(backupDir, saves[i].now), TempName(path, saves[i].suffix)))
    && forall i, j :: 0 <= i < j < |saves| ==> saves[i].now != saves[j].now
  }

  /** However many saves follow, every text the file has held can still be read from the file or its own backup. */
  lemma {:induction false} EveryTextIsKept(states: seq<Files>, saves: seq<SaveRecord>, path: Path, backupDir: Path, i: nat)
    requires WellPlaced(path, backupDir) && IsSaveRun(states, saves, path, backupDir)
    requires i < |saves| && HasText(states[i], path)
    ensures var kept := states[|saves|]; var name := BackupName(backupDir, saves[i].now);
            && name in kept && kept[name] == states[i][path]
            && path in kept && kept[path] == saves[|saves| - 1].data
  {
    var n := |saves| - 1;
    if i < n {
      EveryTextIsKept(states[..n + 1], saves[..n], path, backupDir, i);
      DifferentNames(path, backupDir, saves[i].now, saves[n].now, saves[n].suffix);
      assert states[..n + 1][n] == states[n] && states[..n + 1][i] == states[i] && saves[..n][i] == saves[i];
    }
  }

  // ----- The store

  datatype SaveError = Rejected | InvalidId | FileFailure

  /** `load` parses and validates a configuration text. */
  class Store<Config> {
    const path: Path
    const backupDir: Path
    const disk: Disk
    const load: Text -> Option<Config>

    ghost predicate Valid()
      reads this, disk
    {
      disk.Valid() && WellPlaced(path, backupDir)
    }

    constructor (path: Path, backupDir: Path, disk: Disk, load: Text -> Option<Config>)
      ensures this.path == path && this.backupDir == backupDir && this.disk == disk && this.load == load
    {
      this.path, this.backupDir, this.disk, this.load := path, backupDir, disk, load;
    }

    /** What a save of `data` at a moment works on. */
    ghost function Job(data: Text, now: Moment, suffix: string): (s: Saving)
      requires Valid()
      reads this, disk
      ensures s.Valid()
    {
      DifferentNames(path, backupDir, now, now, suffix);
      Saving(disk.files, path, data, BackupName(backupDir, now), TempName(path, suffix), path in disk.mounted)
    }

    /** Where the temporary file belongs: it has all the data, safe from a crash, before anything is replaced by it. */
    function TempActions(data: Text, suffix: string): seq<Action>
      requires path != []
    {
      var temp := TempName(path, suffix);
      [MakeDir(path[..|path| - 1]), Protect(temp), Sync(temp, data), Close(temp)]
    }

    /** In every state of the disk since `earlier` the text could be read back. */
    ghost predicate NeverLost(earlier: seq<Files>, text: Text)
      reads disk
    {
      && earlier <= disk.trace
      && forall k :: |earlier| <= k < |disk.trace| ==> Recoverable(disk.trace[k], path, backupDir, text)
    }

    lemma UnderwayNeverLoses(job: Saving, earlier: seq<Files>)
      requires job.path == path && backupDir < job.name && job.AllUnderway(earlier, disk.trace)
      ensures HasText(job.before, path) ==> NeverLost(earlier, job.before[path])
    {
    }

    /** Backs the current text up if there is any; an unreadable file stops the save, a missing one does not. */
    method BackUp(now: Moment, ghost job: Saving) returns (ok: bool)
      requires Valid() && job.Valid() && job.before == disk.files
      requires job.path == path && job.name == BackupName(backupDir, now)
      modifies disk
      ensures Valid() && job.AllUnderway(old(disk.trace), disk.trace)
      ensures job.Underway(disk.files) && Untouched(job.before, disk.files, path) && disk.Tells(ok)
      ensures SameExcept(job.before, disk.files, job.name)
      ensures ok ==>
                && job.BackedUp(disk.files)
                && disk.files == (if HasText(job.before, path) then job.before[job.name := job.before[path]] else job.before)
                && disk.actions == old(disk.actions) +
                   if HasText(job.before, path) then [MakeDir(backupDir + [now.date]), Close(job.name)] else []
    {
      var current := disk.ReadFile(path);
      if current.Err? {
        return current.error == NotExist;
      }
      ok := true;
      if current.value != [] {
        ok := disk.Attempt(MakeDir(backupDir + [now.date]));
        if ok {
          ok := disk.WriteFile(BackupName(backupDir, now), current.value);
          job.AsideIsUnderway(old(disk.trace), old(disk.trace), disk.trace, old(disk.files), job.name);
        }
      }
    }

    /** Writes the text to a new temporary file beside the configuration file. */
    method WriteTemp(data: Text, suffix: string, ghost job: Saving, ghost earlier: seq<Files>)
      returns (created: bool, ok: bool)
      requires Valid() && job.Valid() && job.path == path && job.temp == TempName(path, suffix)
      requires job.AllUnderway(earlier, disk.trace) && job.Underway(disk.files) && Untouched(job.before, disk.files, path)
      modifies disk
      ensures Valid() && job.AllUnderway(earlier, disk.trace)
      ensures job.Underway(disk.files) && SameExcept(old(disk.files), disk.files, job.temp)
      ensures disk.Tells(ok)
      ensures ok ==> created && disk.files == old(disk.files)[job.temp := data]
      ensures ok ==> disk.actions == old(disk.actions) + TempActions(data, suffix)
      ensures !created ==> disk.files == old(disk.files)
      ensures created ==> job.temp !in old(disk.files)
    {
      created := MakeTemp(suffix, job, earlier);
      ok := created;
      if ok {
        ok := FillTemp(data, suffix, job, earlier);
      }
    }

    method MakeTemp(suffix: string, ghost job: Saving, ghost earlier: seq<Files>) returns (created: bool)
      requires Valid() && job.Valid() && job.path == path && job.temp == TempName(path, suffix)
      requires job.AllUnderway(earlier, disk.trace) && job.Underway(disk.files)
      modifies disk
      ensures Valid() && job.AllUnderway(earlier, disk.trace) && job.Underway(disk.files) && disk.Tells(created)
      ensures disk.files == if created then old(disk.files)[job.temp := []] else old(disk.files)
      ensures created ==> job.temp !in old(disk.files)
      ensures created ==> disk.actions == old(disk.actions) + [MakeDir(path[..|path| - 1])]
    {
      created := disk.Attempt(MakeDir(path[..|path| - 1]));
      if created {
        created := disk.CreateTemp(TempName(path, suffix));
        job.AsideIsUnderway(earlier, old(disk.trace), disk.trace, old(disk.files), job.temp);
      }
    }

    method FillTemp(data: Text, suffix: string, ghost job: Saving, ghost earlier: seq<Files>) returns (ok: bool)
      requires Valid() && job.Valid() && job.path == path && job.temp == TempName(path, suffix)
      requires job.temp in disk.files && disk.files[job.temp] == []
      requires job.AllUnderway(earlier, disk.trace) && job.Underway(disk.files)
      modifies disk
      ensures Valid() && job.AllUnderway(earlier, disk.trace)
      ensures job.Underway(disk.files) && SameExcept(old(disk.files), disk.files, job.temp) && disk.Tells(ok)
      ensures ok ==> disk.files == old(disk.files)[job.temp := data]
      ensures ok ==> disk.actions == old(disk.actions) + [Protect(job.temp), Sync(job.temp, data), Close(job.temp)]
    {
      ok := disk.Attempt(Protect(TempName(path, suffix)));
      if ok {
        ok := WriteOut(data, suffix, job, earlier);
      }
    }

    method AppendTemp(data: Text, suffix: string, ghost job: Saving, ghost earlier: seq<Files>) returns (ok: bool)
      requires Valid() && job.Valid() && job.path == path && job.temp == TempName(path, suffix)
      requires job.temp in disk.files && disk.files[job.temp] == []
      requires job.AllUnderway(earlier, disk.trace) && job.Underway(disk.files)
      modifies disk
      ensures Valid() && job.AllUnderway(earlier, disk.trace)
      ensures job.Underway(disk.files) && SameExcept(old(disk.files), disk.files, job.temp) && disk.Tells(ok)
      ensures ok ==> disk.files == old(disk.files)[job.temp := data]
      ensures disk.actions == old(disk.actions)
    {
      ok := disk.Append(TempName(path, suffix), data);
      job.AsideIsUnderway(earlier, old(disk.trace), disk.trace, old(disk.files), job.temp);
    }

    method WriteOut(data: Text, suffix: string, ghost job: Saving, ghost earlier: seq<Files>) returns (ok: bool)
      requires Valid() && job.Valid() && job.path == path && job.temp == TempName(path, suffix)
      requires job.temp in disk.files && disk.files[job.temp] == []
      requires job.AllUnderway(earlier, disk.trace) && job.Underway(disk.files)
      modifies disk
      ensures Valid() && job.AllUnderway(earlier, disk.trace)
      ensures job.Underway(disk.files) && SameExcept(old(disk.files), disk.files, job.temp) && disk.Tells(ok)
      ensures ok ==> disk.files == old(disk.files)[job.temp := data]
      ensures ok ==> disk.actions == old(disk.actions) + [Sync(job.temp, data), Close(job.temp)]
    {
      ok := AppendTemp(data, suffix, job, earlier);
      if ok {
        ok := disk.SyncAndClose(TempName(path, suffix));
      }
    }

    /** Cuts a bind-mounted configuration file and writes the text into it. */
    method Overwrite(data: Text, ghost job: Saving, ghost earlier: seq<Files>) returns (ok: bool)
      requires Valid() && job.Valid() && job.path == path && job.data == data && job.mounted && path in disk.files
      requires job.AllUnderway(earlier, disk.trace) && job.Underway(disk.files) && job.BackedUp(disk.files)
      modifies disk
      ensures Valid() && job.AllUnderway(earlier, disk.trace)
      ensures job.Underway(disk.files) && SameExcept(old(disk.files), disk.files, path) && disk.Tells(ok)
      ensures ok ==> disk.files == old(disk.files)[path := data]
      ensures ok ==> disk.actions == old(disk.actions) + [Sync(path, data), Close(path)]
    {
      ok := disk.OpenTruncated(path, false);
      job.InPlaceIsUnderway(earlier, old(disk.trace), disk.trace, old(disk.files));
      if ok {
        ok := FillInPlace(data, job, earlier);
      }
    }

    method FillInPlace(data: Text, ghost job: Saving, ghost earlier: seq<Files>) returns (ok: bool)
      requires Valid() && job.Valid() && job.path == path && job.data == data && job.mounted
      requires path in disk.files && disk.files[path] == []
      requires job.AllUnderway(earlier, disk.trace) && job.Underway(disk.files) && job.BackedUp(disk.files)
      modifies disk
      ensures Valid() && job.AllUnderway(earlier, disk.trace)
      ensures job.Underway(disk.files) && SameExcept(old(disk.files), disk.files, path) && disk.Tells(ok)
      ensures ok ==> disk.files == old(disk.files)[path := data]
      ensures ok ==> disk.actions == old(disk.actions) + [Sync(path, data), Close(path)]
    {
      ok := disk.Append(path, data);
      job.InPlaceIsUnderway(earlier, old(disk.trace), disk.trace, old(disk.files));
      if ok {
        ok := disk.SyncAndClose(path);
      }
    }

    /** Moves the temporary file over the configuration file; a bind-mounted one is written in place instead. */
    method Replace(data: Text, suffix: string, ghost job: Saving, ghost earlier: seq<Files>) returns (ok: bool)
      requires Valid() && job.Valid() && job.path == path && job.data == data && job.temp == TempName(path, suffix)
      requires job.mounted == (path in disk.mounted) && job.AllUnderway(earlier, disk.trace)
      requires job.Underway(disk.files) && job.BackedUp(disk.files) && Untouched(job.before, disk.files, path)
      requires job.temp in disk.files && disk.files[job.temp] == data
      modifies disk
      ensures Valid() && job.AllUnderway(earlier, disk.trace) && job.Underway(disk.files)
      ensures ok && !job.mounted ==> job.temp !in disk.files
      ensures ok ==>
                || disk.actions == old(disk.actions) + [Move(job.temp, path)]
                || (job.mounted && disk.actions == old(disk.actions) + [Sync(path, data), Close(path)])
      ensures ok ==> path in disk.files && disk.files[path] == data
      ensures disk.Tells(ok)
      ensures forall q :: q != path && q != job.temp ==>
                (q in old(disk.files) <==> q in disk.files) && (q in disk.files ==> disk.files[q] == old(disk.files)[q])
    {
      var error := disk.Rename(TempName(path, suffix), path);
      if error.None? {
        assert job.Underway(disk.files);
        return true;
      }
      if error != Some(Busy) {
        return false;
      }
      ok := Overwrite(data, job, earlier);
    }

    /**
     * Whatever fails, and at every step: the old text stays in the file or in a backup, a file that is not
     * bind-mounted holds a whole text, and nothing but the file, one backup and one temporary file changes. A rejected
     * text changes nothing. An accepted one is saved exactly if no file operation fails; that there was no file yet,
     * that it cannot be renamed over, and that the temporary file cannot be removed, are no such failures.
     */
    method Save(data: Text, now: Moment, suffix: string) returns (r: Result<Config, SaveError>)
      requires Valid()
      modifies disk
      ensures Valid()
      ensures load(data).None? ==> r == Err(Rejected) && disk.files == old(disk.files) && disk.trace == old(disk.trace)
      ensures load(data).Some? ==>
                r == if disk.failures == old(disk.failures) then Ok(load(data).value) else Err(FileFailure)
      ensures disk.failures >= old(disk.failures) && (load(data).None? ==> disk.failures == old(disk.failures))
      ensures var backup, temp := backupDir + [now.date, now.time + ".yaml"],
                                  path[..|path| - 1] + [".config-" + suffix + ".tmp"];
              r.Ok? ==>
                && Saved(old(disk.files), disk.files, path, data, backup, temp)
                && (path !in disk.mounted ==> temp !in disk.files)
                && var ready := old(disk.actions) +
                     (if HasText(old(disk.files), path) then [MakeDir(backupDir + [now.date]), Close(backup)] else []) +
                     [MakeDir(path[..|path| - 1]), Protect(temp), Sync(temp, data), Close(temp)];
                   || disk.actions == ready + [Move(temp, path), Remove(temp)]
                   || (path in disk.mounted && disk.actions == ready + [Sync(path, data), Close(path), Remove(temp)])
      ensures var temp := path[..|path| - 1] + [".config-" + suffix + ".tmp"];
              && (temp in old(disk.files) ==> Untouched(old(disk.files), disk.files, temp))
              && (temp in disk.files && temp !in old(disk.files) ==>
                    disk.actions != [] && disk.actions[|disk.actions| - 1] == Remove(temp))
      ensures old(Job(data, now, suffix)).AllUnderway(old(disk.trace), disk.trace)
      ensures HasText(old(disk.files), path) ==> NeverLost(old(disk.trace), old(disk.files)[path])
    {
      ghost var job, earlier := Job(data, now, suffix), disk.trace;
      var config := load(data);
      if config.None? {
        return Err(Rejected);
      }
      var ok := BackUp(now, job);
      if ok {
        ok := WriteAndReplace(data, suffix, job, earlier);
      }
      UnderwayNeverLoses(job, earlier);
      r := if ok then Ok(config.value) else Err(FileFailure);
    }

    /** The temporary file is removed however the save ends. */
    method WriteAndReplace(data: Text, suffix: string, ghost job: Saving, ghost earlier: seq<Files>) returns (ok: bool)
      requires Valid() && job.Valid() && job.path == path && job.data == data && job.temp == TempName(path, suffix)
      requires job.mounted == (path in disk.mounted) && job.AllUnderway(earlier, disk.trace)
      requires job.Underway(disk.files) && job.BackedUp(disk.files) && Untouched(job.before, disk.files, path)
      modifies disk
      ensures Valid() && job.AllUnderway(earlier, disk.trace) && job.Underway(disk.files)
      ensures ok ==>
                var ready := old(disk.actions) + TempActions(data, suffix);
                || disk.actions == ready + [Move(job.temp, path), Remove(job.temp)]
                || (job.mounted && disk.actions == ready + [Sync(path, data), Close(path), Remove(job.temp)])
      ensures job.temp in old(disk.files) ==> Untouched(old(disk.files), disk.files, job.temp)
      ensures job.temp in disk.files && job.temp !in old(disk.files) ==>
                disk.actions != [] && disk.actions[|disk.actions| - 1] == Remove(job.temp)
      ensures ok && !job.mounted ==> job.temp !in disk.files
      ensures ok ==> path in disk.files && disk.files[path] == data
      ensures disk.Tells(ok)
      ensures forall q :: q != path && q != job.temp ==>
                (q in old(disk.files) <==> q in disk.files) && (q in disk.files ==> disk.files[q] == old(disk.files)[q])
    {
      var created;
      created, ok := WriteTemp(data, suffix, job, earlier);
      if ok {
        ok := Replace(data, suffix, job, earlier);
      }
      if created {
        RemoveTemp(suffix, job, earlier);
      }
    }

    method RemoveTemp(suffix: string, ghost job: Saving, ghost earlier: seq<Files>)
      requires Valid() && job.Valid() && job.path == path && job.temp == TempName(path, suffix)
      requires job.AllUnderway(earlier, disk.trace) && job.Underway(disk.files)
      modifies disk
      ensures Valid() && job.AllUnderway(earlier, disk.trace) && job.Underway(disk.files)
      ensures SameExcept(old(disk.files), disk.files, job.temp)
      ensures (job.temp in disk.files ==> job.temp in old(disk.files)) && disk.failures == old(disk.failures)
      ensures disk.actions == old(disk.actions) + [Remove(job.temp)]
    {
      disk.Remove(TempName(path, suffix));
      job.AsideIsUnderway(earlier, old(disk.trace), disk.trace, old(disk.files), job.temp);
    }

    /** The answer to loading a backup when no file operation fails. */
    ghost function Loaded(absolute: bool, id: seq<string>): Result<(Text, Config), SaveError>
      reads disk
    {
      var name := backupDir + Clean(id);
      if absolute || Clean(id) == [] || (|Clean(id)[0]| >= 2 && Clean(id)[0][..2] == "..") then Err(InvalidId)
      else if name !in disk.files then Err(FileFailure)
      else if load(disk.files[name]).None? then Err(Rejected)
      else Ok((disk.files[name], load(disk.files[name]).value))
    }

    /** Reads a backup that is named inside the backup directory and still loads. */
    method LoadBackup(absolute: bool, id: seq<string>) returns (r: Result<(Text, Config), SaveError>)
      modifies disk`failures
      ensures disk.failures >= old(disk.failures)
      ensures r == if disk.failures == old(disk.failures) then Loaded(absolute, id) else Err(FileFailure)
      ensures r == Err(InvalidId) <==> !ValidBackupId(absolute, id)
    {
      if !ValidBackupId(absolute, id) {
        return Err(InvalidId);
      }
      var data := disk.ReadFile(backupDir + Clean(id));
      if data.Err? {
        return Err(FileFailure);
      }
      var config := load(data.value);
      r := if config.None? then Err(Rejected) else Ok((data.value, config.value));
    }

    /** A save of the backup's text: what was in the file before is backed up in turn. */
    method Restore(absolute: bool, id: seq<string>, now: Moment, suffix: string) returns (r: Result<Config, SaveError>)
      requires Valid()
      modifies disk
      ensures Valid() && disk.failures >= old(disk.failures)
      ensures disk.failures > old(disk.failures) ==> r == Err(FileFailure)
      ensures disk.failures == old(disk.failures) ==>
                match old(Loaded(absolute, id))
                case Err(e) => r == Err(e) && disk.files == old(disk.files) && disk.trace == old(disk.trace)
                case Ok((text, config)) =>
                  && r == Ok(config)
                  && Saved(old(disk.files), disk.files, path, text, BackupName(backupDir, now), TempName(path, suffix))
      ensures r == Err(InvalidId) <==> !ValidBackupId(absolute, id)
      ensures HasText(old(disk.files), path) ==> NeverLost(old(disk.trace), old(disk.files)[path])
    {
      var backup := LoadBackup(absolute, id);
      if backup.Err? {
        return Err(backup.error);
      }
      r := Save(backup.value.0, now, suffix);
    }

    /**
     * A save and then the restore of the backup it made. If no file operation fails and both texts load, both succeed,
     * the file holds the old text again, byte for byte, and the newer text is in a backup. If the old text does not
     * load, which a save does not ask of it, the restore is refused; then the file keeps the newer text and the backup
     * the old one.
     */
    method SaveThenRestore(data: Text, first: Moment, second: Moment, suffix1: string, suffix2: string)
      returns (saved: Result<Config, SaveError>, restored: Result<Config, SaveError>)
      requires Valid() && first.date != "" && first.date[0] != '.'
      modifies disk
      ensures Valid()
      ensures disk.failures == old(disk.failures) && load(data).Some? ==> saved == Ok(load(data).value)
      ensures saved.Ok? && HasText(old(disk.files), path) ==>
                var text := old(disk.files)[path];
                && (restored.Ok? ==>
                      && path in disk.files && disk.files[path] == text && load(text) == Some(restored.value)
                      && (data != [] ==>
                            var name := BackupName(backupDir, second);
                            name in disk.files && disk.files[name] == data))
                && restored != Err(InvalidId)
                && (disk.failures == old(disk.failures) ==>
                      restored == if load(text).Some? then Ok(load(text).value) else Err(Rejected))
                && (restored == Err(Rejected) ==>
                      && load(text).None? && path in disk.files && disk.files[path] == data
                      && var name := BackupName(backupDir, first);
                         name in disk.files && disk.files[name] == text)
    {
      saved := Save(data, first, suffix1);
      if saved.Err? {
        return saved, Err(saved.error);
      }
      ghost var between := disk.files;
      BackupIdIsValid(first);
      restored := Restore(false, BackupId(first), second, suffix2);
      if HasText(old(disk.files), path) && restored.Ok? && data != [] {
        RestoreUndoesSave(old(disk.files), between, disk.files, path, backupDir, data, first, second, suffix1, suffix2);
      }
    }
  }
}
