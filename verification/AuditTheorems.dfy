/**
 * What whole runs of the audit writer leave on disk: nothing is ever lost, and without errors each day's files, read in
 * order, are that day's entries in the order they were written.
 */
module AuditTheorems {
  import opened AuditState
  import opened Bytes
  import opened Wrappers

  datatype Event = Write(date: Day, data: seq<byte>, ok: bool) | Close(ok: bool)

  ghost predicate Happens(s: State, t: State, limit: nat, e: Event) {
    match e
    case Write(date, data, ok) => Wrote(s, t, limit, date, data, ok)
    case Close(ok) => Closed(s, t, ok)
  }

  ghost predicate IsRun(states: seq<State>, events: seq<Event>, limit: nat) {
    && |states| == |events| + 1
    && forall i :: 0 <= i < |events| ==> Happens(states[i], states[i + 1], limit, events[i])
  }

  // ----- Nothing is lost

  ghost predicate Extends(before: Files, after: Files) {
    forall key :: key in before ==> key in after && before[key] <= after[key]
  }

  /** One write touches one file, at its end, with the entry or a part of it; a successful one with all of it. */
  lemma OneWriteOneFile(s: State, t: State, limit: nat, date: Day, data: seq<byte>, ok: bool)
    requires Wrote(s, t, limit, date, data, ok)
    ensures Extends(s.files, t.files)
    ensures var key := (date, TargetIndex(s, limit, date, |data|));
            && t.files.Keys <= s.files.Keys + {key}
            && (forall k :: k in t.files && k != key ==> t.files[k] == s.files[k])
            && ContentOf(t.files, key) <= ContentOf(s.files, key) + data
            && (ok ==> key in t.files && t.files[key] == ContentOf(s.files, key) + data)
  {
    var key := (date, TargetIndex(s, limit, date, |data|));
    assert ContentOf(s.files, key) <= ContentOf(t.files, key);
  }

  /**
   * Where a successful write puts the entry: the open file, if it is the day's and the entry fits within the limit;
   * else the first later number of the day that is free, or whose file has room. It is put there whole, at the end.
   */
  lemma WrittenWhereItFits(s: State, t: State, limit: nat, date: Day, data: seq<byte>)
    requires s.Valid() && Wrote(s, t, limit, date, data, true)
    ensures !(s.open && s.broken) && t.open && !t.broken && t.date == Some(date)
    ensures var fits := s.open && s.date == Some(date) && |s.files[(date, s.index)]| + |data| <= limit;
            var base := if s.date == Some(date) then s.index else 0;
            && (fits ==> t.index == s.index)
            && (!fits ==>
                  && t.index > base
                  && ((date, t.index) in s.files ==> |s.files[(date, t.index)]| + |data| <= limit)
                  && forall j :: base < j < t.index ==>
                       (date, j) in s.files && |s.files[(date, j)]| + |data| > limit)
    ensures var key := (date, t.index);
            && t.size == |t.files[key]|
            && t.files == s.files[key := (if key in s.files then s.files[key] else []) + data]
  {
    if !Fits(s, limit, date, |data|) {
      var base := Base(s, date);
      forall j | base < j < t.index ensures (date, j) in s.files && |s.files[(date, j)]| + |data| > limit {
        assert !HasRoom(s.files, (date, j), |data|, limit);
      }
    }
  }

  /** Over any run, failures included, existing content only grows. */
  lemma {:induction false} RunOnlyExtends(states: seq<State>, events: seq<Event>, limit: nat)
    requires IsRun(states, events, limit)
    ensures Extends(states[0].files, states[|events|].files)
  {
    var n := |events| - 1;
    if n >= 0 {
      RunOnlyExtends(states[..n + 1], events[..n], limit);
      match events[n]
      case Write(date, data, ok) => OneWriteOneFile(states[n], states[n + 1], limit, date, data, ok);
      case Close(_) =>
    }
  }

  /** After a write failed at its file, no entry is ever written again: every later write and close fails. */
  lemma {:induction false} BrokenForGood(states: seq<State>, events: seq<Event>, limit: nat)
    requires IsRun(states, events, limit) && states[0].open && states[0].broken
    ensures states[|events|] == states[0] && forall i :: 0 <= i < |events| ==> !events[i].ok
  {
    var n := |events| - 1;
    if n >= 0 {
      BrokenForGood(states[..n + 1], events[..n], limit);
      assert Happens(states[n], states[n + 1], limit, events[n]);
      forall i | 0 <= i < |events| ensures !events[i].ok {
        assert i < n ==> events[..n][i] == events[i];
      }
    }
  }

  /**
   * A writer that started closed is broken exactly when some write failed with its file open, that is, while writing
   * to it; a write that failed before its file was open does no harm.
   */
  lemma {:induction false} BrokenByFailedWrite(states: seq<State>, events: seq<Event>, limit: nat)
    requires IsRun(states, events, limit) && !states[0].open
    ensures states[|events|].open && states[|events|].broken <==>
            exists j :: 0 <= j < |events| && events[j].Write? && !events[j].ok && states[j + 1].open
  {
    var n := |events| - 1;
    if n >= 0 {
      var before, middle := events[..n], states[..n + 1];
      BrokenByFailedWrite(middle, before, limit);
      assert Happens(states[n], states[n + 1], limit, events[n]);
      if states[n].open && states[n].broken {
        var j :| 0 <= j < n && before[j].Write? && !before[j].ok && middle[j + 1].open;
        assert events[j].Write? && !events[j].ok && states[j + 1].open;
      } else {
        forall j | 0 <= j < n && events[j].Write? && !events[j].ok ensures !states[j + 1].open {
          assert before[j] == events[j] && middle[j + 1] == states[j + 1];
        }
      }
    }
  }

  /** Only a broken writer is bound to fail: any other writes the entry if no file operation fails. */
  lemma WritesUnlessBroken(s: State, limit: nat, date: Day, data: seq<byte>)
    ensures (exists t :: Wrote(s, t, limit, date, data, true)) <==> !(s.open && s.broken)
  {
    if !(s.open && s.broken) {
      assert Wrote(s, Written(s, limit, date, data), limit, date, data, true);
    }
  }

  // ----- Packing

  function Join(entries: seq<seq<byte>>): seq<byte> {
    if entries == [] then [] else Join(entries[..|entries| - 1]) + entries[|entries| - 1]
  }

  /** The entries of a day, in the order they were written. */
  function EntriesOn(events: seq<Event>, day: Day): seq<seq<byte>> {
    if events == [] then []
    else
      var rest, last := EntriesOn(events[..|events| - 1], day), events[|events| - 1];
      if last.Write? && last.date == day then rest + [last.data] else rest
  }

  /** The day's file is open: the last thing that happened was a write on it. */
  predicate StillOpen(events: seq<Event>, day: Day) {
    events != [] && events[|events| - 1].Write? && events[|events| - 1].date == day
  }

  /** The next entry goes into the last file or starts another one. */
  function AddTo(blocks: seq<seq<seq<byte>>>, fits: bool, data: seq<byte>): seq<seq<seq<byte>>>
    requires fits ==> blocks != []
  {
    if fits then blocks[..|blocks| - 1] + [blocks[|blocks| - 1] + [data]] else blocks + [[data]]
  }

  predicate FitsLast(blocks: seq<seq<seq<byte>>>, data: seq<byte>, limit: nat) {
    blocks != [] && |Join(blocks[|blocks| - 1])| + |data| <= limit
  }

  /** Files that are there already, each as one block. */
  function Singles(start: seq<seq<byte>>): (blocks: seq<seq<seq<byte>>>)
    ensures |blocks| == |start|
  {
    if start == [] then [] else Singles(start[..|start| - 1]) + [[start[|start| - 1]]]
  }

  /** Whether the next entry of the day goes into its last file: the open one, or the last old one on a new start. */
  predicate Continues(events: seq<Event>, limit: nat, day: Day, blocks: seq<seq<seq<byte>>>, data: seq<byte>) {
    (StillOpen(events, day) || EntriesOn(events, day) == []) && FitsLast(blocks, data, limit)
  }

  /**
   * The entries of a day, file by file, after those in the files `start`: one that fits goes to the open file, any
   * other starts the next.
   */
  function Blocks(start: seq<seq<byte>>, events: seq<Event>, limit: nat, day: Day): (blocks: seq<seq<seq<byte>>>) {
    if events == [] then Singles(start)
    else
      var before, last := events[..|events| - 1], events[|events| - 1];
      var rest := Blocks(start, before, limit, day);
      if last.Write? && last.date == day then AddTo(rest, Continues(before, limit, day, rest, last.data), last.data)
      else rest
  }

  lemma BlocksAfter(start: seq<seq<byte>>, events: seq<Event>, e: Event, limit: nat, day: Day)
    ensures var rest := Blocks(start, events, limit, day);
            Blocks(start, events + [e], limit, day) ==
            if e.Write? && e.date == day then AddTo(rest, Continues(events, limit, day, rest, e.data), e.data) else rest
  {
    assert (events + [e])[..|events|] == events;
  }

  function Flatten(blocks: seq<seq<seq<byte>>>): seq<seq<byte>> {
    if blocks == [] then [] else Flatten(blocks[..|blocks| - 1]) + blocks[|blocks| - 1]
  }

  lemma {:induction false} SinglesFlatten(start: seq<seq<byte>>)
    ensures Flatten(Singles(start)) == start
  {
    if start != [] {
      var front, last := start[..|start| - 1], start[|start| - 1];
      SinglesFlatten(front);
      assert Singles(start)[..|start| - 1] == Singles(front);
    }
  }

  /** Cutting a day into files keeps every entry, whole and in order. */
  lemma {:induction false} BlocksKeepOrder(start: seq<seq<byte>>, events: seq<Event>, limit: nat, day: Day)
    ensures Flatten(Blocks(start, events, limit, day)) == start + EntriesOn(events, day)
  {
    if events == [] {
      SinglesFlatten(start);
    } else {
      var before, last := events[..|events| - 1], events[|events| - 1];
      BlocksKeepOrder(start, before, limit, day);
      var rest := Blocks(start, before, limit, day);
      if last.Write? && last.date == day {
        FlattenAdd(rest, Continues(before, limit, day, rest, last.data), last.data);
      }
    }
  }

  lemma FlattenAdd(blocks: seq<seq<seq<byte>>>, fits: bool, data: seq<byte>)
    requires fits ==> blocks != []
    ensures Flatten(AddTo(blocks, fits, data)) == Flatten(blocks) + [data]
  {
    var more := AddTo(blocks, fits, data);
    assert more[..|more| - 1] == if fits then blocks[..|blocks| - 1] else blocks;
  }

  /** A file is within the limit, or it holds one entry that is larger than the limit by itself. */
  ghost predicate WithinLimit(block: seq<seq<byte>>, limit: nat) {
    block != [] && (|Join(block)| <= limit || |block| == 1)
  }

  ghost predicate AllWithinLimit(blocks: seq<seq<seq<byte>>>, limit: nat) {
    forall i :: 0 <= i < |blocks| ==> WithinLimit(blocks[i], limit)
  }

  lemma JoinOne(entries: seq<seq<byte>>, entry: seq<byte>)
    ensures Join(entries + [entry]) == Join(entries) + entry
  {
    assert (entries + [entry])[..|entries|] == entries;
  }

  lemma JoinSingle(entry: seq<byte>)
    ensures Join([entry]) == entry
  {
    assert [entry][..0] == [];
  }

  lemma AddToKeepsLimit(blocks: seq<seq<seq<byte>>>, fits: bool, data: seq<byte>, limit: nat)
    requires AllWithinLimit(blocks, limit) && (fits ==> FitsLast(blocks, data, limit))
    ensures AllWithinLimit(AddTo(blocks, fits, data), limit)
  {
    var more := AddTo(blocks, fits, data);
    forall i | 0 <= i < |more| ensures WithinLimit(more[i], limit) {
      if i < |more| - 1 {
        assert more[i] == blocks[i];
      } else if fits {
        JoinOne(blocks[i], data);
      }
    }
  }

  lemma {:induction false} SinglesAt(start: seq<seq<byte>>, i: nat)
    requires i < |start|
    ensures Singles(start)[i] == [start[i]] && Join(Singles(start)[i]) == start[i]
  {
    JoinSingle(start[i]);
    if i < |start| - 1 {
      SinglesAt(start[..|start| - 1], i);
    }
  }

  lemma {:induction false} BlocksWithinLimit(start: seq<seq<byte>>, events: seq<Event>, limit: nat, day: Day)
    ensures AllWithinLimit(Blocks(start, events, limit, day), limit)
  {
    if events == [] {
      forall i | 0 <= i < |start| ensures WithinLimit(Singles(start)[i], limit) {
        SinglesAt(start, i);
      }
    } else {
      var before, last := events[..|events| - 1], events[|events| - 1];
      BlocksWithinLimit(start, before, limit, day);
      if last.Write? && last.date == day {
        var rest := Blocks(start, before, limit, day);
        AddToKeepsLimit(rest, Continues(before, limit, day, rest, last.data), last.data, limit);
      }
    }
  }

  // ----- Runs without errors

  ghost predicate ErrorFree(events: seq<Event>) {
    forall i :: 0 <= i < |events| ==> events[i].ok
  }

  /** The clock does not go back from one write to a later one. */
  ghost predicate InDateOrder(events: seq<Event>) {
    forall i, j :: 0 <= i < j < |events| && events[i].Write? && events[j].Write? ==> events[i].date <= events[j].date
  }

  function LastDate(events: seq<Event>): Option<Day> {
    if events == [] then None
    else if events[|events| - 1].Write? then Some(events[|events| - 1].date)
    else LastDate(events[..|events| - 1])
  }

  lemma {:induction false} LastDateWasWritten(events: seq<Event>)
    ensures LastDate(events).Some? ==>
              exists i :: 0 <= i < |events| && events[i].Write? && events[i].date == LastDate(events).value
  {
    if events != [] && !events[|events| - 1].Write? {
      LastDateWasWritten(events[..|events| - 1]);
      if LastDate(events).Some? {
        var i :| 0 <= i < |events| - 1 && events[..|events| - 1][i].Write? &&
                 events[..|events| - 1][i].date == LastDate(events).value;
        assert events[i].Write?;
      }
    }
  }

  lemma {:induction false} NoEntriesWithoutWrites(events: seq<Event>, day: Day)
    requires forall i :: 0 <= i < |events| && events[i].Write? ==> events[i].date != day
    ensures EntriesOn(events, day) == []
  {
    if events != [] {
      NoEntriesWithoutWrites(events[..|events| - 1], day);
    }
  }

  lemma {:induction false} LastDayHasEntries(events: seq<Event>)
    requires LastDate(events).Some?
    ensures EntriesOn(events, LastDate(events).value) != []
  {
    if !events[|events| - 1].Write? {
      LastDayHasEntries(events[..|events| - 1]);
    }
  }

  lemma {:induction false} UnwrittenDay(start: seq<seq<byte>>, events: seq<Event>, limit: nat, day: Day)
    requires EntriesOn(events, day) == []
    ensures Blocks(start, events, limit, day) == Singles(start)
  {
    if events != [] {
      UnwrittenDay(start, events[..|events| - 1], limit, day);
    }
  }

  /** The files of a day are its blocks, numbered from one, and no others. */
  ghost predicate HoldsBlocks(files: Files, day: Day, blocks: seq<seq<seq<byte>>>) {
    && (forall i :: (day, i) in files <==> 1 <= i <= |blocks|)
    && forall i :: 1 <= i <= |blocks| ==> files[(day, i)] == Join(blocks[i - 1])
  }

  /** A day's directory as the writer finds it: files numbered from one, with these contents. */
  ghost predicate HoldsFiles(files: Files, day: Day, start: seq<seq<byte>>) {
    && (forall i :: (day, i) in files <==> 1 <= i <= |start|)
    && forall i :: 1 <= i <= |start| ==> files[(day, i)] == start[i - 1]
  }

  /** No file but the last has room for so many bytes. */
  predicate NoRoomBefore(start: seq<seq<byte>>, incoming: nat, limit: nat) {
    forall j :: 0 <= j < |start| - 1 ==> |start[j]| + incoming > limit
  }

  /** The writer and one day's files after an error-free run; they were `start` when the writer was made. */
  ghost predicate Tracks(s: State, start: seq<seq<byte>>, events: seq<Event>, limit: nat, day: Day) {
    var blocks := Blocks(start, events, limit, day);
    && s.Valid() && !s.broken && s.date == LastDate(events)
    && (s.open <==> events != [] && events[|events| - 1].Write?)
    && (s.date == Some(day) ==> s.index == |blocks|)
    && HoldsBlocks(s.files, day, blocks)
  }

  /** A day the last write was not on has no entries yet: all writes so far were on earlier days. */
  lemma NewDayIsEmpty(events: seq<Event>, e: Event)
    requires e.Write? && InDateOrder(events + [e]) && LastDate(events) != Some(e.date)
    ensures EntriesOn(events, e.date) == []
  {
    var all := events + [e];
    assert forall i :: 0 <= i < |events| ==> all[i] == events[i];
    LastDateWasWritten(events);
    forall i | 0 <= i < |events| && events[i].Write? ensures events[i].date != e.date {
      LastDateIsLatest(events, i);
      var k :| 0 <= k < |events| && events[k].Write? && events[k].date == LastDate(events).value;
      assert all[k] == events[k] && all[|events|] == e;
    }
    NoEntriesWithoutWrites(events, e.date);
  }

  lemma {:induction false} LastDateIsLatest(events: seq<Event>, i: nat)
    requires InDateOrder(events) && i < |events| && events[i].Write?
    ensures LastDate(events).Some? && events[i].date <= LastDate(events).value
  {
    var n := |events| - 1;
    if i < n && !events[n].Write? {
      assert events[..n][i] == events[i];
      LastDateIsLatest(events[..n], i);
    }
  }

  lemma FilesAreSingles(files: Files, day: Day, start: seq<seq<byte>>)
    ensures HoldsFiles(files, day, start) <==> HoldsBlocks(files, day, Singles(start))
  {
    forall j | 0 <= j < |start| ensures Join(Singles(start)[j]) == start[j] {
      SinglesAt(start, j);
    }
  }

  /** The first entry a new writer puts into a day goes to the first file with room, or starts the next. */
  lemma FirstEntryGoesTo(files: Files, day: Day, start: seq<seq<byte>>, incoming: nat, limit: nat)
    requires HoldsFiles(files, day, start)
    ensures var n, k := |start|, FirstFit(files, day, 0, incoming, limit);
            && (k >= n <==> NoRoomBefore(start, incoming, limit))
            && (k >= n ==> k == if n > 0 && |start[n - 1]| + incoming <= limit then n else n + 1)
            && (k < n ==> |start[k - 1]| + incoming <= limit)
  {
    var n, k := |start|, FirstFit(files, day, 0, incoming, limit);
    assert HasRoom(files, (day, n + 1), incoming, limit);
    forall j | 0 <= j < n ensures HasRoom(files, (day, j + 1), incoming, limit) <==> |start[j]| + incoming <= limit {
      assert files[(day, j + 1)] == start[j];
    }
    if k < n {
      assert HasRoom(files, (day, (k - 1) + 1), incoming, limit);
    } else {
      forall j | 0 <= j < n - 1 ensures |start[j]| + incoming > limit {
        assert !HasRoom(files, (day, j + 1), incoming, limit);
      }
    }
  }

  /** Where the next entry goes is where the cutting into blocks puts it. */
  lemma NextEntryGoesToBlock(s: State, start: seq<seq<byte>>, events: seq<Event>, limit: nat, day: Day, data: seq<byte>)
    requires Tracks(s, start, events, limit, day) && InDateOrder(events + [Write(day, data, true)])
    requires EntriesOn(events, day) == [] ==> NoRoomBefore(start, |data|, limit)
    ensures var rest := Blocks(start, events, limit, day);
            TargetIndex(s, limit, day, |data|) ==
            if Continues(events, limit, day, rest, data) then |rest| else |rest| + 1
  {
    var rest := Blocks(start, events, limit, day);
    if s.date == Some(day) {
      LastDayHasEntries(events);
      assert (day, |rest| + 1) !in s.files;
    } else {
      NewDayIsEmpty(events, Write(day, data, true));
      UnwrittenDay(start, events, limit, day);
      FilesAreSingles(s.files, day, start);
      FirstEntryGoesTo(s.files, day, start, |data|, limit);
      if start != [] {
        SinglesAt(start, |start| - 1);
      }
    }
  }

  lemma AddedHolds(files: Files, day: Day, blocks: seq<seq<seq<byte>>>, fits: bool, data: seq<byte>)
    requires HoldsBlocks(files, day, blocks) && (fits ==> blocks != [])
    ensures var key := (day, if fits then |blocks| else |blocks| + 1);
            HoldsBlocks(files[key := ContentOf(files, key) + data], day, AddTo(blocks, fits, data))
  {
    var more, n := AddTo(blocks, fits, data), if fits then |blocks| else |blocks| + 1;
    var key := (day, n);
    var after := files[key := ContentOf(files, key) + data];
    forall i | 1 <= i <= n ensures after[(day, i)] == Join(more[i - 1]) {
      if i < n {
        assert more[i - 1] == blocks[i - 1];
      } else if fits {
        JoinOne(blocks[n - 1], data);
      } else {
        JoinSingle(data);
      }
    }
  }

  lemma WriteTracks(s: State, start: seq<seq<byte>>, events: seq<Event>, limit: nat, day: Day, data: seq<byte>)
    requires Tracks(s, start, events, limit, day) && InDateOrder(events + [Write(day, data, true)])
    requires EntriesOn(events, day) == [] ==> NoRoomBefore(start, |data|, limit)
    ensures Tracks(Written(s, limit, day, data), start, events + [Write(day, data, true)], limit, day)
  {
    var rest := Blocks(start, events, limit, day);
    BlocksAfter(start, events, Write(day, data, true), limit, day);
    NextEntryGoesToBlock(s, start, events, limit, day, data);
    AddedHolds(s.files, day, rest, Continues(events, limit, day, rest, data), data);
  }

  lemma WriteElsewhereTracks(s: State, start: seq<seq<byte>>, events: seq<Event>, limit: nat, day: Day, date: Day,
                             data: seq<byte>)
    requires Tracks(s, start, events, limit, day) && date != day
    ensures Tracks(Written(s, limit, date, data), start, events + [Write(date, data, true)], limit, day)
  {
    BlocksAfter(start, events, Write(date, data, true), limit, day);
  }

  lemma CloseTracks(s: State, t: State, start: seq<seq<byte>>, events: seq<Event>, limit: nat, day: Day)
    requires Tracks(s, start, events, limit, day) && Closed(s, t, true)
    ensures Tracks(t, start, events + [Close(true)], limit, day)
  {
    assert (events + [Close(true)])[..|events|] == events;
    BlocksAfter(start, events, Close(true), limit, day);
  }

  /** The day's first entry, if there is one, finds no room before the last file that is there. */
  predicate StartsAtEnd(start: seq<seq<byte>>, entries: seq<seq<byte>>, limit: nat) {
    entries != [] ==> NoRoomBefore(start, |entries[0]|, limit)
  }

  lemma {:induction false} ErrorFreeRunTracks(states: seq<State>, start: seq<seq<byte>>, events: seq<Event>, limit: nat,
                                              day: Day)
    requires IsRun(states, events, limit) && states[0] == State.Initial(states[0].files)
    requires HoldsFiles(states[0].files, day, start) && StartsAtEnd(start, EntriesOn(events, day), limit)
    requires ErrorFree(events) && InDateOrder(events)
    ensures Tracks(states[|events|], start, events, limit, day)
  {
    var n := |events| - 1;
    if n < 0 {
      FilesAreSingles(states[0].files, day, start);
    } else {
      var before := events[..n];
      ErrorFreeRunTracks(states[..n + 1], start, before, limit, day);
      assert before + [events[n]] == events;
      assert Happens(states[n], states[n + 1], limit, events[n]);
      match events[n]
      case Write(date, data, _) =>
        if date == day {
          WriteTracks(states[n], start, before, limit, day, data);
        } else {
          WriteElsewhereTracks(states[n], start, before, limit, day, date, data);
        }
      case Close(_) => CloseTracks(states[n], states[n + 1], start, before, limit, day);
    }
  }

  /** The day's files, put one after the other by number. */
  function DayText(files: Files, day: Day, count: nat): seq<byte> {
    if count == 0 then [] else DayText(files, day, count - 1) + ContentOf(files, (day, count))
  }

  lemma {:induction false} JoinMore(a: seq<seq<byte>>, b: seq<seq<byte>>)
    ensures Join(a + b) == Join(a) + Join(b)
  {
    if b == [] {
      assert a + b == a;
    } else {
      var front, last := b[..|b| - 1], b[|b| - 1];
      JoinMore(a, front);
      assert b == front + [last] && a + b == (a + front) + [last];
      JoinOne(a + front, last);
      assert Join(a) + Join(front) + last == Join(a) + (Join(front) + last);
    }
  }

  lemma {:induction false} DayTextIsJoined(files: Files, day: Day, blocks: seq<seq<seq<byte>>>)
    requires forall i :: 1 <= i <= |blocks| ==> ContentOf(files, (day, i)) == Join(blocks[i - 1])
    ensures DayText(files, day, |blocks|) == Join(Flatten(blocks))
  {
    if blocks != [] {
      var front, last := blocks[..|blocks| - 1], blocks[|blocks| - 1];
      DayTextIsJoined(files, day, front);
      JoinMore(Flatten(front), last);
    }
  }

  lemma HeldBlocksJoin(files: Files, day: Day, blocks: seq<seq<seq<byte>>>)
    requires HoldsBlocks(files, day, blocks)
    ensures DayText(files, day, |blocks|) == Join(Flatten(blocks))
  {
    DayTextIsJoined(files, day, blocks);
  }

  lemma DayTextOfFiles(files: Files, day: Day, start: seq<seq<byte>>)
    requires HoldsFiles(files, day, start)
    ensures DayText(files, day, |start|) == Join(start)
  {
    FilesAreSingles(files, day, start);
    HeldBlocksJoin(files, day, Singles(start));
    SinglesFlatten(start);
  }

  /**
   * An error-free run from any directory in which the day's files are numbered without gaps, with a clock that does
   * not go back and no room for the day's first entry before the last of these files. Afterwards the day has files 1
   * to n and no others; they cut what was there and the day's entries, whole and in the order written, into stretches
   * that are within the limit or hold one oversized piece; and read one after the other they are what was there
   * followed by the entries. An empty directory, with `start` empty, is one of these.
   */
  lemma ErrorFreeRunKeepsOrder(states: seq<State>, start: seq<seq<byte>>, events: seq<Event>, limit: nat, day: Day)
    requires IsRun(states, events, limit) && states[0] == State.Initial(states[0].files)
    requires HoldsFiles(states[0].files, day, start) && StartsAtEnd(start, EntriesOn(events, day), limit)
    requires ErrorFree(events) && InDateOrder(events)
    ensures var files, blocks := states[|events|].files, Blocks(start, events, limit, day);
            && HoldsBlocks(files, day, blocks) && AllWithinLimit(blocks, limit)
            && Flatten(blocks) == start + EntriesOn(events, day)
            && DayText(files, day, |blocks|) == DayText(states[0].files, day, |start|) + Join(EntriesOn(events, day))
  {
    var blocks := Blocks(start, events, limit, day);
    ErrorFreeRunTracks(states, start, events, limit, day);
    BlocksKeepOrder(start, events, limit, day);
    BlocksWithinLimit(start, events, limit, day);
    HeldBlocksJoin(states[|events|].files, day, blocks);
    DayTextOfFiles(states[0].files, day, start);
    JoinMore(start, EntriesOn(events, day));
  }

  // ----- Restarts

  lemma {:induction false} DayTextDependsOn(files: Files, other: Files, day: Day, count: nat)
    requires forall i :: 1 <= i <= count ==> ContentOf(files, (day, i)) == ContentOf(other, (day, i))
    ensures DayText(files, day, count) == DayText(other, day, count)
  {
    if count > 0 {
      DayTextDependsOn(files, other, day, count - 1);
    }
  }

  /** Where a restarted writer's first entry may be put in without harm: at the end, or before nothing but empty files. */
  predicate LastWithText(start: seq<seq<byte>>, index: nat) {
    index >= |start| || forall j :: index <= j < |start| ==> start[j] == []
  }

  lemma {:induction false} JoinEmpty(entries: seq<seq<byte>>)
    ensures Join(entries) == [] <==> forall j :: 0 <= j < |entries| ==> entries[j] == []
  {
    if entries != [] {
      var front, last := entries[..|entries| - 1], entries[|entries| - 1];
      JoinEmpty(front);
      assert forall j :: 0 <= j < |front| ==> front[j] == entries[j];
    }
  }

  lemma JoinSplit(entries: seq<seq<byte>>, i: nat)
    requires i <= |entries|
    ensures Join(entries) == Join(entries[..i]) + Join(entries[i..])
  {
    assert entries == entries[..i] + entries[i..];
    JoinMore(entries[..i], entries[i..]);
  }

  lemma JoinWithEntry(start: seq<seq<byte>>, i: nat, data: seq<byte>)
    requires i < |start|
    ensures Join(start[i := start[i] + data]) == Join(start[..i + 1]) + data + Join(start[i + 1..])
  {
    var after, head := start[i := start[i] + data], start[..i];
    JoinSplit(after, i + 1);
    assert after[..i + 1] == head + [start[i] + data] && after[i + 1..] == start[i + 1..];
    JoinOne(head, start[i] + data);
    assert start[..i + 1] == head + [start[i]];
    JoinOne(head, start[i]);
    assert Join(head) + (start[i] + data) == (Join(head) + start[i]) + data;
  }

  lemma HoldsWithEntry(files: Files, day: Day, start: seq<seq<byte>>, i: nat, data: seq<byte>)
    requires HoldsFiles(files, day, start) && i < |start|
    ensures HoldsFiles(files[(day, i + 1) := start[i] + data], day, start[i := start[i] + data])
  {
  }

  /** The day's text after an entry was put at the end of one of its files. */
  lemma DayTextWithEntry(files: Files, day: Day, start: seq<seq<byte>>, i: nat, data: seq<byte>)
    requires HoldsFiles(files, day, start) && i < |start|
    ensures DayText(files[(day, i + 1) := start[i] + data], day, |start|) ==
            Join(start[..i + 1]) + data + Join(start[i + 1..])
  {
    HoldsWithEntry(files, day, start, i, data);
    DayTextOfFiles(files[(day, i + 1) := start[i] + data], day, start[i := start[i] + data]);
    JoinWithEntry(start, i, data);
  }

  lemma RestAfter(head: seq<byte>, data: seq<byte>, rest: seq<byte>)
    ensures head + data + rest == head + rest + data <==> data + rest == rest + data
  {
    assert (head + data + rest)[|head|..] == data + rest;
    assert (head + rest + data)[|head|..] == rest + data;
    assert head + data + rest == head + (data + rest) && head + rest + data == head + (rest + data);
  }

  lemma EntryAtEnd(files: Files, day: Day, start: seq<seq<byte>>, data: seq<byte>, limit: nat)
    requires HoldsFiles(files, day, start) && NoRoomBefore(start, |data|, limit)
    ensures var t, n := Written(State.Initial(files), limit, day, data), |start|;
            n <= t.index <= n + 1 && DayText(t.files, day, t.index) == DayText(files, day, n) + data
  {
    var t, n := Written(State.Initial(files), limit, day, data), |start|;
    FirstEntryGoesTo(files, day, start, |data|, limit);
    DayTextDependsOn(t.files, files, day, t.index - 1);
    if t.index == n {
      assert DayText(files, day, n) == DayText(files, day, n - 1) + start[n - 1];
      assert (DayText(files, day, n - 1) + start[n - 1]) + data == DayText(files, day, n - 1) + (start[n - 1] + data);
    } else {
      assert t.files[(day, n + 1)] == data;
    }
  }

  lemma RestIsEmpty(start: seq<seq<byte>>, i: nat)
    requires i < |start|
    ensures Join(start[i..]) == [] <==> LastWithText(start, i)
  {
    JoinEmpty(start[i..]);
    assert forall j :: i <= j < |start| ==> start[j] == start[i..][j - i];
    assert forall j :: 0 <= j < |start[i..]| ==> start[i..][j] == start[i + j];
  }

  lemma EntryBefore(files: Files, day: Day, start: seq<seq<byte>>, i: nat, data: seq<byte>)
    requires HoldsFiles(files, day, start) && i + 1 < |start|
    ensures var n, rest := |start|, Join(start[i + 1..]);
            DayText(files[(day, i + 1) := start[i] + data], day, n) == DayText(files, day, n) + data <==>
            data + rest == rest + data
  {
    DayTextWithEntry(files, day, start, i, data);
    DayTextOfFiles(files, day, start);
    JoinSplit(start, i + 1);
    RestAfter(Join(start[..i + 1]), data, Join(start[i + 1..]));
  }

  /**
   * The first entry after a restart goes to the end of the day's files, or to the first one before the last with room.
   * In the second case the text that followed, `rest`, now comes after it: the day's text is the old one and then the
   * entry if and only if the two commute, and so always if that text is empty.
   */
  lemma RestartKeepsOrder(files: Files, day: Day, start: seq<seq<byte>>, data: seq<byte>, limit: nat)
    requires HoldsFiles(files, day, start)
    ensures var t, n := Written(State.Initial(files), limit, day, data), |start|;
            && (t.index >= n <==> NoRoomBefore(start, |data|, limit))
            && (t.index >= n ==>
                  t.index <= n + 1 && DayText(t.files, day, t.index) == DayText(files, day, n) + data)
            && (t.index < n ==>
                  && t.index >= 1 && t.files[(day, t.index)] == start[t.index - 1] + data
                  && var rest := Join(start[t.index..]);
                  && (DayText(t.files, day, n) == DayText(files, day, n) + data <==> data + rest == rest + data)
                  && (rest == [] <==> LastWithText(start, t.index)))
  {
    var t := Written(State.Initial(files), limit, day, data);
    FirstEntryGoesTo(files, day, start, |data|, limit);
    if t.index >= |start| {
      EntryAtEnd(files, day, start, data, limit);
    } else {
      var i := t.index - 1;
      assert t.files == files[(day, i + 1) := start[i] + data];
      EntryBefore(files, day, start, i, data);
      RestIsEmpty(start, t.index);
    }
  }

  /** The day's first entry, wherever it falls in a run, goes where a new writer's would. */
  lemma FirstOfDay(states: seq<State>, start: seq<seq<byte>>, events: seq<Event>, limit: nat, day: Day, data: seq<byte>)
    requires IsRun(states, events, limit) && states[0] == State.Initial(states[0].files)
    requires HoldsFiles(states[0].files, day, start) && ErrorFree(events) && InDateOrder(events)
    requires EntriesOn(events, day) == []
    ensures var s := states[|events|];
            && HoldsFiles(s.files, day, start) && s.date != Some(day) && !s.broken
            && TargetIndex(s, limit, day, |data|) == FirstFit(states[0].files, day, 0, |data|, limit)
  {
    var s := states[|events|];
    ErrorFreeRunTracks(states, start, events, limit, day);
    UnwrittenDay(start, events, limit, day);
    FilesAreSingles(s.files, day, start);
    if s.date == Some(day) {
      LastDayHasEntries(events);
    }
    SameFirstFit(states[0].files, s.files, day, start, |data|, limit);
  }

  lemma PrefixOfRun(events: seq<Event>, k: nat)
    requires k < |events| && ErrorFree(events[..k + 1]) && InDateOrder(events[..k + 1])
    ensures ErrorFree(events[..k]) && InDateOrder(events[..k]) && events[k].ok
  {
    assert events[..k + 1][k] == events[k];
    assert forall i :: 0 <= i < k ==> events[..k][i] == events[..k + 1][i];
  }

  /**
   * If a later file holds text the order is lost for good: however the run goes on, failures and clocks that go back
   * included, the entry stays in a file before older text.
   */
  lemma RestartReorders(states: seq<State>, start: seq<seq<byte>>, events: seq<Event>, k: nat, limit: nat, day: Day)
    requires IsRun(states, events, limit) && states[0] == State.Initial(states[0].files)
    requires HoldsFiles(states[0].files, day, start) && k < |events|
    requires ErrorFree(events[..k + 1]) && InDateOrder(events[..k + 1])
    requires events[k].Write? && events[k].date == day && EntriesOn(events[..k], day) == []
    requires !LastWithText(start, FirstFit(states[0].files, day, 0, |events[k].data|, limit))
    ensures exists i, j :: 1 <= i < j <= |start| && start[j - 1] != []
              && (day, i) in states[|events|].files && start[i - 1] + events[k].data <= states[|events|].files[(day, i)]
              && (day, j) in states[|events|].files && start[j - 1] <= states[|events|].files[(day, j)]
  {
    var data, s, t := events[k].data, states[k], states[k + 1];
    PrefixOfRun(events, k);
    FirstOfDay(states[..k + 1], start, events[..k], limit, day, data);
    assert Happens(s, t, limit, events[k]);
    var i := FirstFit(states[0].files, day, 0, |data|, limit);
    var m :| i <= m < |start| && start[m] != [];
    assert t.files[(day, i)] == start[i - 1] + data && t.files[(day, m + 1)] == start[m];
    RunOnlyExtends(states[k + 1..], events[k + 1..], limit);
    assert states[k + 1..][|events| - k - 1] == states[|events|];
    var j := m + 1;
    assert start[j - 1] != [];
  }

  lemma SameFirstFit(files: Files, other: Files, day: Day, start: seq<seq<byte>>, incoming: nat, limit: nat)
    requires HoldsFiles(files, day, start) && HoldsFiles(other, day, start)
    ensures FirstFit(files, day, 0, incoming, limit) == FirstFit(other, day, 0, incoming, limit)
  {
    var a, b := FirstFit(files, day, 0, incoming, limit), FirstFit(other, day, 0, incoming, limit);
    forall k: nat ensures HasRoom(files, (day, k), incoming, limit) <==> HasRoom(other, (day, k), incoming, limit) {
      if 1 <= k <= |start| {
        assert files[(day, k)] == other[(day, k)];
      }
    }
    assert HasRoom(other, (day, a), incoming, limit) && HasRoom(files, (day, b), incoming, limit);
  }

  /** A new writer fills two files of a day that has none. */
  lemma WritesTwoFiles(limit: nat, day: Day, first: seq<byte>, second: seq<byte>)
    requires |first| + |second| > limit
    ensures var s1 := Written(State.Initial(map[]), limit, day, first);
            HoldsFiles(Written(s1, limit, day, second).files, day, [first, second])
  {
    var none: Files := map[];
    assert FirstFit(none, day, 0, |first|, limit) == 1;
    var s1 := Written(State.Initial(none), limit, day, first);
    assert s1.index == 1 && s1.files == none[(day, 1) := [] + first];
    assert [] + first == first;
    assert FirstFit(s1.files, day, 1, |second|, limit) == 2;
    var s2 := Written(s1, limit, day, second);
    assert s2.files == s1.files[(day, 2) := [] + second];
    assert [] + second == second;
  }

  lemma ThirdGoesFirst(files: Files, limit: nat, day: Day, first: seq<byte>, second: seq<byte>, third: seq<byte>)
    requires HoldsFiles(files, day, [first, second]) && |first| + |third| <= limit
    ensures DayText(Written(State.Initial(files), limit, day, third).files, day, 2) == first + third + second
  {
    var start := [first, second];
    FirstEntryGoesTo(files, day, start, |third|, limit);
    assert FirstFit(files, day, 0, |third|, limit) == 1;
    DayTextWithEntry(files, day, start, 0, third);
    assert start[..0 + 1] == [first] && start[0 + 1..] == [second];
    JoinSingle(first);
    JoinSingle(second);
  }

  /** At every limit a writer, restarted once, can do this to files it wrote itself. */
  lemma RestartCanReorder(limit: nat, day: Day, first: seq<byte>, second: seq<byte>, third: seq<byte>)
    requires |first| + |second| > limit && |first| + |third| <= limit
    ensures var s1 := Written(State.Initial(map[]), limit, day, first);
            var s2 := Written(s1, limit, day, second);
            var s3 := Written(State.Initial(s2.files), limit, day, third);
            DayText(s3.files, day, 2) == first + third + second
  {
    var s2 := Written(Written(State.Initial(map[]), limit, day, first), limit, day, second);
    WritesTwoFiles(limit, day, first, second);
    ThirdGoesFirst(s2.files, limit, day, first, second, third);
  }

  /** Such entries exist at every limit from two bytes on, none of them oversized. */
  lemma EveryLimitCanReorder(limit: nat)
    requires limit >= 2
    ensures exists first: seq<byte>, second: seq<byte>, third: seq<byte> ::
              && |first| <= limit && |second| <= limit && |third| <= limit
              && |first| + |second| > limit && |first| + |third| <= limit
              && first + third + second != first + second + third
  {
    var first: seq<byte>, second: seq<byte>, third: seq<byte> := seq(limit - 1, _ => 1), [2, 2], [3];
    assert (first + third + second)[limit - 1] == 3 && (first + second + third)[limit - 1] == 2;
    assert first + third + second != first + second + third;
  }
}
