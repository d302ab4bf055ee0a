/**
 * The order of the audit log over every run, failures included: on a day that had no files when the writer was made,
 * the files in order hold exactly the entries whose write succeeded, and then at most a part of the one that broke it.
 */
module AuditRuns {
  import opened AuditState
  import opened AuditTheorems
  import opened Bytes
  import opened Wrappers

  /** The entries of a day whose write succeeded, in order. */
  function Successes(events: seq<Event>, day: Day): seq<seq<byte>> {
    if events == [] then []
    else
      var rest, last := Successes(events[..|events| - 1], day), events[|events| - 1];
      if last.Write? && last.date == day && last.ok then rest + [last.data] else rest
  }

  /** All files of the day are numbered from 1 to at most `n`; some of these numbers may have been skipped. */
  ghost predicate UpTo(files: Files, day: Day, n: nat) {
    forall i :: (day, i) in files ==> 1 <= i <= n
  }

  lemma {:induction false} TextUpTo(files: Files, day: Day, a: nat, b: nat)
    requires UpTo(files, day, a) && a <= b
    ensures DayText(files, day, b) == DayText(files, day, a)
  {
    if a < b {
      TextUpTo(files, day, a, b - 1);
      assert (day, b) !in files;
    }
  }

  /** A part of an entry was put into the last file, or into a new one after it. */
  lemma TextAfterPart(files: Files, day: Day, last: nat, m: nat, part: seq<byte>)
    requires UpTo(files, day, last) && m >= 1 && last <= m <= last + 1
    ensures var after := files[(day, m) := ContentOf(files, (day, m)) + part];
            UpTo(after, day, m) && DayText(after, day, m) == DayText(files, day, last) + part
  {
    var after := files[(day, m) := ContentOf(files, (day, m)) + part];
    DayTextDependsOn(after, files, day, m - 1);
    TextUpTo(files, day, last, m);
    assert DayText(files, day, m - 1) + (ContentOf(files, (day, m)) + part) ==
           (DayText(files, day, m - 1) + ContentOf(files, (day, m))) + part;
  }

  /** The file the writer broke at belongs to the day. */
  predicate BrokenOn(s: State, day: Day) {
    s.open && s.broken && s.date == Some(day)
  }

  /** The entries whose write succeeded, and after them nothing, or a part of one whose write on that day failed. */
  ghost predicate TextIs(text: seq<byte>, written: seq<byte>, broken: bool, events: seq<Event>, day: Day) {
    if broken then
      && written <= text
      && exists j :: 0 <= j < |events| && events[j].Write? && events[j].date == day && !events[j].ok
                     && text <= written + events[j].data
    else text == written
  }

  /** The date the writer stands at is that of some write before. */
  ghost predicate Dated(s: State, events: seq<Event>) {
    s.date.Some? ==> exists i :: 0 <= i < |events| && events[i].Write? && events[i].date == s.date.value
  }

  predicate Ahead(s: State, day: Day) {
    s.date.None? || s.date.value < day
  }

  /** The writer and one day's files at any point of a run. */
  ghost predicate InTurn(s: State, events: seq<Event>, day: Day, last: nat) {
    && s.Valid() && Dated(s, events) && UpTo(s.files, day, last)
    && (s.date == Some(day) ==> last == s.index)
    && (Ahead(s, day) ==> last == 0)
    && TextIs(DayText(s.files, day, last), Join(Successes(events, day)), BrokenOn(s, day), events, day)
  }

  lemma NextDate(s: State, events: seq<Event>, e: Event)
    requires Dated(s, events) && InDateOrder(events + [e]) && e.Write?
    ensures s.date.Some? ==> s.date.value <= e.date
  {
    if s.date.Some? {
      var i :| 0 <= i < |events| && events[i].Write? && events[i].date == s.date.value;
      assert (events + [e])[i] == events[i] && (events + [e])[|events|] == e;
    }
  }

  /** The next entry goes to the last file or the one after it. */
  lemma TargetIsLast(s: State, events: seq<Event>, day: Day, last: nat, limit: nat, incoming: nat)
    requires InTurn(s, events, day, last) && (s.date == Some(day) || Ahead(s, day))
    ensures var m := TargetIndex(s, limit, day, incoming); m >= 1 && last <= m <= last + 1
    ensures FirstFit(s.files, day, Base(s, day), incoming, limit) == last + 1
  {
    assert (day, last + 1) !in s.files;
    assert HasRoom(s.files, (day, last + 1), incoming, limit);
  }

  lemma SuccessesAfter(events: seq<Event>, e: Event, day: Day)
    ensures Successes(events + [e], day) ==
            if e.Write? && e.date == day && e.ok then Successes(events, day) + [e.data] else Successes(events, day)
    ensures e.Write? && e.date == day && e.ok ==> Join(Successes(events + [e], day)) == Join(Successes(events, day)) + e.data
  {
    assert (events + [e])[..|events|] == events;
    if e.Write? {
      JoinOne(Successes(events, day), e.data);
    }
  }

  lemma StillDated(s: State, t: State, events: seq<Event>, e: Event)
    requires Dated(s, events) && (t.date == s.date || (e.Write? && t.date == Some(e.date)))
    ensures Dated(t, events + [e])
  {
    var all := events + [e];
    assert all[|events|] == e;
    if s.date.Some? && t.date == s.date {
      var i :| 0 <= i < |events| && events[i].Write? && events[i].date == s.date.value;
      assert all[i] == events[i];
    }
  }

  lemma TextStays(text: seq<byte>, written: seq<byte>, broken: bool, events: seq<Event>, e: Event, day: Day)
    requires TextIs(text, written, broken, events, day)
    ensures TextIs(text, written, broken, events + [e], day)
  {
    if broken {
      var j :| 0 <= j < |events| && events[j].Write? && events[j].date == day && !events[j].ok
               && text <= written + events[j].data;
      assert (events + [e])[j] == events[j];
    }
  }

  /** An event that leaves the day's files alone. */
  lemma ElsewhereInTurn(s: State, t: State, events: seq<Event>, e: Event, day: Day, last: nat, next: nat)
    requires InTurn(s, events, day, last) && t.Valid() && Dated(t, events + [e])
    requires !(e.Write? && e.date == day && e.ok)
    requires forall i :: ((day, i) in t.files <==> (day, i) in s.files)
                         && ((day, i) in s.files ==> t.files[(day, i)] == s.files[(day, i)])
    requires last <= next && (t.date == Some(day) ==> next == t.index) && (Ahead(t, day) ==> next == 0)
    requires BrokenOn(t, day) == BrokenOn(s, day)
    ensures InTurn(t, events + [e], day, next)
  {
    SuccessesAfter(events, e, day);
    TextUpTo(s.files, day, last, next);
    DayTextDependsOn(t.files, s.files, day, next);
    TextStays(DayText(t.files, day, next), Join(Successes(events, day)), BrokenOn(s, day), events, e, day);
  }

  lemma WrittenInTurn(s: State, events: seq<Event>, e: Event, limit: nat, day: Day, last: nat)
    requires InTurn(s, events, day, last) && (s.date == Some(day) || Ahead(s, day)) && !(s.open && s.broken)
    requires e.Write? && e.date == day && e.ok
    ensures var t := Written(s, limit, day, e.data); InTurn(t, events + [e], day, t.index)
  {
    var t := Written(s, limit, day, e.data);
    TargetIsLast(s, events, day, last, limit, |e.data|);
    TextAfterPart(s.files, day, last, t.index, e.data);
    SuccessesAfter(events, e, day);
    StillDated(s, t, events, e);
  }

  lemma TornInTurn(s: State, t: State, events: seq<Event>, e: Event, limit: nat, day: Day, last: nat)
    requires InTurn(s, events, day, last) && (s.date == Some(day) || Ahead(s, day)) && !(s.open && s.broken)
    requires e.Write? && e.date == day && !e.ok && Torn(s, t, limit, day, e.data)
    ensures InTurn(t, events + [e], day, t.index)
  {
    var key := (day, t.index);
    var content := ContentOf(s.files, key);
    var part := t.files[key][|content|..];
    TargetIsLast(s, events, day, last, limit, |e.data|);
    assert t.files[key] == content + part;
    assert part <= e.data by {
      assert (content + e.data)[|content|..] == e.data;
    }
    TextAfterPart(s.files, day, last, t.index, part);
    SuccessesAfter(events, e, day);
    StillDated(s, t, events, e);
    assert (events + [e])[|events|] == e;
  }

  lemma NotOpenedInTurn(s: State, t: State, events: seq<Event>, e: Event, limit: nat, day: Day, last: nat)
    returns (next: nat)
    requires InTurn(s, events, day, last) && InDateOrder(events + [e]) && !(s.open && s.broken)
    requires e.Write? && !e.ok && NotOpened(s, t, limit, e.date, |e.data|)
    ensures InTurn(t, events + [e], day, next)
  {
    NextDate(s, events, e);
    StillDated(s, t, events, e);
    next := if t.date == Some(day) then t.index else last;
    ElsewhereInTurn(s, t, events, e, day, last, next);
  }

  lemma WriteInTurn(s: State, t: State, events: seq<Event>, e: Event, limit: nat, day: Day, last: nat)
    returns (next: nat)
    requires InTurn(s, events, day, last) && InDateOrder(events + [e]) && e.Write?
    requires Wrote(s, t, limit, e.date, e.data, e.ok)
    ensures InTurn(t, events + [e], day, next)
  {
    NextDate(s, events, e);
    if s.open && s.broken {
      StillDated(s, t, events, e);
      next := last;
      ElsewhereInTurn(s, t, events, e, day, last, next);
    } else if !e.ok && NotOpened(s, t, limit, e.date, |e.data|) {
      next := NotOpenedInTurn(s, t, events, e, limit, day, last);
    } else if e.date != day {
      StillDated(s, t, events, e);
      next := last;
      ElsewhereInTurn(s, t, events, e, day, last, next);
    } else if e.ok {
      next := t.index;
      WrittenInTurn(s, events, e, limit, day, last);
    } else {
      next := t.index;
      TornInTurn(s, t, events, e, limit, day, last);
    }
  }

  lemma {:induction false} RunInTurn(states: seq<State>, events: seq<Event>, limit: nat, day: Day) returns (last: nat)
    requires IsRun(states, events, limit) && states[0] == State.Initial(states[0].files)
    requires (forall i :: (day, i) !in states[0].files) && InDateOrder(events)
    ensures InTurn(states[|events|], events, day, last)
  {
    var n := |events| - 1;
    if n < 0 {
      last := 0;
    } else {
      var before, e := events[..n], events[n];
      last := RunInTurn(states[..n + 1], before, limit, day);
      assert before + [e] == events;
      assert Happens(states[n], states[n + 1], limit, e);
      if e.Write? {
        last := WriteInTurn(states[n], states[n + 1], before, e, limit, day, last);
      } else {
        StillDated(states[n], states[n + 1], before, e);
        ElsewhereInTurn(states[n], states[n + 1], before, e, day, last, last);
      }
    }
  }

  /**
   * Over every run with a clock that does not go back, whatever fails: the files of a day that had none at the start,
   * read in order up to any number they do not go beyond, hold exactly the entries whose write succeeded, in order,
   * and after them at most a part of one whose write failed and broke the writer.
   */
  lemma RunKeepsOrder(states: seq<State>, events: seq<Event>, limit: nat, day: Day)
    requires IsRun(states, events, limit) && states[0] == State.Initial(states[0].files)
    requires (forall i :: (day, i) !in states[0].files) && InDateOrder(events)
    ensures var s := states[|events|];
            && (exists n :: UpTo(s.files, day, n))
            && forall n :: UpTo(s.files, day, n) ==>
                 TextIs(DayText(s.files, day, n), Join(Successes(events, day)), BrokenOn(s, day), events, day)
  {
    var s := states[|events|];
    var last := RunInTurn(states, events, limit, day);
    assert UpTo(s.files, day, last);
    forall n | UpTo(s.files, day, n) ensures DayText(s.files, day, n) == DayText(s.files, day, last) {
      if n < last {
        TextUpTo(s.files, day, n, last);
      } else {
        TextUpTo(s.files, day, last, n);
      }
    }
  }
}
