/**
 * The audit writer as a state that its calls move: where it stands in a day's numbered files, and what the files hold.
 * `Wrote` relates the states before and after one write, whether or not it succeeds.
 */
module AuditState {
  import opened Bytes
  import opened Wrappers

  /** A calendar day. Days are numbered; the source writes them year first, which orders their names the same way. */
  type Day = nat

  /** One file: its day's directory and its number in it. */
  type Key = (Day, nat)

  type Files = map<Key, seq<byte>>

  /** `broken`: a write to the open file failed; its buffer repeats that error for ever. */
  datatype State = State(date: Option<Day>, index: nat, size: nat, open: bool, broken: bool, files: Files) {
    ghost predicate Valid() {
      open ==> date.Some? && (date.value, index) in files && (!broken ==> size == |files[(date.value, index)]|)
    }

    /** The state of a writer just made. */
    static function Initial(files: Files): State {
      State(None, 0, 0, false, false, files)
    }
  }

  /** The files a search that has passed number `from` can still find in its way. */
  function Later(files: Files, date: Day, from: nat): set<Key> {
    set key | key in files && key.0 == date && key.1 > from
  }

  predicate HasRoom(files: Files, key: Key, incoming: nat, limit: nat) {
    key in files ==> |files[key]| + incoming <= limit
  }

  /** The search ends because there are finitely many files. */
  function FirstFit(files: Files, date: Day, from: nat, incoming: nat, limit: nat): (k: nat)
    ensures k > from && HasRoom(files, (date, k), incoming, limit)
    ensures forall j :: from < j < k ==> !HasRoom(files, (date, j), incoming, limit)
    decreases |Later(files, date, from)|
  {
    if HasRoom(files, (date, from + 1), incoming, limit) then from + 1
    else
      PassingOne(files, date, from);
      FirstFit(files, date, from + 1, incoming, limit)
  }

  lemma PassingOne(files: Files, date: Day, from: nat)
    requires (date, from + 1) in files
    ensures |Later(files, date, from + 1)| < |Later(files, date, from)|
  {
    assert Later(files, date, from + 1) == Later(files, date, from) - {(date, from + 1)};
  }

  /** The open file takes the entry: same day, and within the limit. */
  predicate Fits(s: State, limit: nat, date: Day, incoming: nat) {
    s.open && s.date == Some(date) && s.size + incoming <= limit
  }

  /** The number after which a new file is looked for: the day's last one used, or none on another day. */
  function Base(s: State, date: Day): nat {
    if s.date == Some(date) then s.index else 0
  }

  function TargetIndex(s: State, limit: nat, date: Day, incoming: nat): nat {
    if Fits(s, limit, date, incoming) then s.index
    else FirstFit(s.files, date, Base(s, date), incoming, limit)
  }

  function ContentOf(files: Files, key: Key): seq<byte> {
    if key in files then files[key] else []
  }

  /** A write that succeeds: the whole entry at the end of the file it belongs in. */
  function Written(s: State, limit: nat, date: Day, data: seq<byte>): State {
    var key := (date, TargetIndex(s, limit, date, |data|));
    var content := ContentOf(s.files, key) + data;
    State(Some(date), key.1, |content|, true, false, s.files[key := content])
  }

  /** A write that failed before any file was open for it: closing, making the directory, looking or opening failed. */
  ghost predicate NotOpened(s: State, t: State, limit: nat, date: Day, incoming: nat) {
    && !Fits(s, limit, date, incoming) && !t.open && t.files == s.files
    && (|| (s.open && t.date == s.date && t.index == s.index)
        || (t.date == Some(date) && Base(s, date) <= t.index <= FirstFit(s.files, date, Base(s, date), incoming, limit)))
  }

  /** A write that failed at the file: a part of the entry may have arrived, and the buffer is broken. */
  ghost predicate Torn(s: State, t: State, limit: nat, date: Day, data: seq<byte>) {
    var key := (date, TargetIndex(s, limit, date, |data|));
    && t.date == Some(date) && t.index == key.1 && t.open && t.broken
    && key in t.files && ContentOf(s.files, key) <= t.files[key] <= ContentOf(s.files, key) + data
    && t.files == s.files[key := t.files[key]]
  }

  ghost predicate Wrote(s: State, t: State, limit: nat, date: Day, data: seq<byte>, ok: bool) {
    if s.open && s.broken then t == s && !ok
    else if ok then t == Written(s, limit, date, data)
    else NotOpened(s, t, limit, date, |data|) || Torn(s, t, limit, date, data)
  }

  ghost predicate Closed(s: State, t: State, ok: bool) {
    if s.open && s.broken then t == s && !ok
    else t == s.(open := false) && (ok || s.open)
  }
}
