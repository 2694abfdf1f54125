/** The life of persistent Storage blobs (src/storage.rs): save, delete and media
    read as interleaved steps, each of which may fail, be cancelled or be cut off
    by a crash, and the recovery at startup. */
module Blobs {
  import opened Wrappers

  type Id = nat

  datatype Key = Key(bucket: string, name: string)

  /** What a file's bytes are checked by. */
  datatype Content = Content(size: nat, crc: nat)

  datatype Row = Row(blob: Id, content: Content, generation: int, created: int, updated: int)

  /** Where a request is. A detached task has lost its caller and the guard with
      it: the file work or queued transaction it had started may still run, but no
      one goes on from there. */
  datatype Task =
    | Writing(key: Key, blob: Id, content: Content, detached: bool)
    | Renamed(key: Key, blob: Id, content: Content)
    | Saving(key: Key, blob: Id, content: Content, detached: bool)
    | Deleting(key: Key, detached: bool)
    | Cleaning(stale: Option<Id>, detached: bool)
    | Reading(key: Key)
    | Loading(row: Row)

  datatype State = State(
    files: map<Id, Content>,
    temporary: set<int>,
    rows: map<Key, Row>,
    counter: int,
    used: set<Id>,
    tasks: map<int, Task>,
    writer: Option<int>,
    readers: set<int>)

  const EMPTY := State(map[], {}, map[], 0, {}, map[], None, {})

  datatype Step =
    | StartSave(task: int, key: Key, blob: Id, content: Content)
    | FinishWrite(task: int)
    | FailWrite(task: int, renamed: bool)
    | LockSave(task: int)
    | LockDelete(task: int, key: Key)
    | Commit(task: int, now: int)
    | FailCommit(task: int)
    | Unlink(task: int, removed: bool)
    | LockRead(task: int, key: Key)
    | Select(task: int)
    | Load(task: int)
    | Cancel(task: int)
    | Crash
    | Sweep(doomed: set<Id>)
    | Recover

  function Referenced(s: State): set<Id> {
    set k | k in s.rows :: s.rows[k].blob
  }

  /** The check recovery makes before it removes anything. */
  predicate NothingMissing(s: State) {
    forall k :: k in s.rows ==> s.rows[k].blob in s.files
  }

  predicate GuardFree(s: State) { s.writer.None? && s.readers == {} }

  predicate Admissible(s: State, step: Step) {
    match step
    case StartSave(t, _, blob, _) => t !in s.tasks && blob !in s.used
    case FinishWrite(t) => t in s.tasks && s.tasks[t].Writing?
    case FailWrite(t, _) => t in s.tasks && s.tasks[t].Writing?
    case LockSave(t) => t in s.tasks && s.tasks[t].Renamed? && GuardFree(s)
    case LockDelete(t, _) => t !in s.tasks && GuardFree(s)
    case Commit(t, _) => t in s.tasks && (s.tasks[t].Saving? || s.tasks[t].Deleting?)
    case FailCommit(t) => t in s.tasks && (s.tasks[t].Saving? || s.tasks[t].Deleting?)
    case Unlink(t, _) => t in s.tasks && s.tasks[t].Cleaning?
    case LockRead(t, _) => t !in s.tasks && s.writer.None?
    case Select(t) => t in s.tasks && s.tasks[t].Reading?
    case Load(t) => t in s.tasks && s.tasks[t].Loading?
    case Cancel(t) => t in s.tasks
    case Crash => true
    case Sweep(doomed) => s.tasks == map[] && NothingMissing(s) && doomed !! Referenced(s)
    case Recover => s.tasks == map[]
  }

  /** Ends a task and lets go of whatever guard it holds. */
  function End(s: State, task: int): State {
    s.(tasks := s.tasks - {task}, writer := if s.writer == Some(task) then None else s.writer,
       readers := s.readers - {task})
  }

  function Detach(s: State, task: int, rest: Task): State {
    s.(tasks := s.tasks[task := rest], writer := if s.writer == Some(task) then None else s.writer)
  }

  function CommitSave(s: State, task: int, now: int): State
    requires task in s.tasks && s.tasks[task].Saving?
  {
    var t := s.tasks[task];
    var before := if t.key in s.rows then Some(s.rows[t.key]) else None;
    var row := Row(t.blob, t.content, s.counter + 1, if before.Some? then before.value.created else now, now);
    var next := s.(rows := s.rows[t.key := row], counter := s.counter + 1);
    if t.detached then End(next, task)
    else next.(tasks := next.tasks[task := Cleaning(if before.Some? then Some(before.value.blob) else None, false)])
  }

  function CommitDelete(s: State, task: int): State
    requires task in s.tasks && s.tasks[task].Deleting?
  {
    var t := s.tasks[task];
    if t.key !in s.rows then End(s, task)
    else
      var next := s.(rows := s.rows - {t.key});
      if t.detached then End(next, task)
      else next.(tasks := next.tasks[task := Cleaning(Some(s.rows[t.key].blob), false)])
  }

  function Apply(s: State, step: Step): State
    requires Admissible(s, step)
  {
    match step
    case StartSave(t, key, blob, content) =>
      s.(tasks := s.tasks[t := Writing(key, blob, content, false)], temporary := s.temporary + {t},
         used := s.used + {blob})
    case FinishWrite(t) =>
      var w := s.tasks[t];
      var next := s.(files := s.files[w.blob := w.content], temporary := s.temporary - {t});
      if w.detached then End(next, t) else next.(tasks := next.tasks[t := Renamed(w.key, w.blob, w.content)])
    case FailWrite(t, renamed) =>
      var w := s.tasks[t];
      End(if renamed then s.(files := s.files[w.blob := w.content]) else s, t)
        .(temporary := if renamed || !w.detached then s.temporary - {t} else s.temporary)
    case LockSave(t) =>
      s.(tasks := s.tasks[t := Saving(s.tasks[t].key, s.tasks[t].blob, s.tasks[t].content, false)], writer := Some(t))
    case LockDelete(t, key) => s.(tasks := s.tasks[t := Deleting(key, false)], writer := Some(t))
    case Commit(t, now) => if s.tasks[t].Saving? then CommitSave(s, t, now) else CommitDelete(s, t)
    case FailCommit(t) =>
      if s.tasks[t].Saving? && !s.tasks[t].detached then
        s.(tasks := s.tasks[t := Cleaning(Some(s.tasks[t].blob), false)])
      else End(s, t)
    case Unlink(t, removed) =>
      if removed && s.tasks[t].stale.Some? then End(s.(files := s.files - {s.tasks[t].stale.value}), t) else End(s, t)
    case LockRead(t, key) => s.(tasks := s.tasks[t := Reading(key)], readers := s.readers + {t})
    case Select(t) =>
      var key := s.tasks[t].key;
      if key in s.rows then s.(tasks := s.tasks[t := Loading(s.rows[key])]) else End(s, t)
    case Load(t) => End(s, t)
    case Cancel(t) =>
      (match s.tasks[t]
       case Writing(key, blob, content, _) => Detach(s, t, Writing(key, blob, content, true))
       case Saving(key, blob, content, _) => Detach(s, t, Saving(key, blob, content, true))
       case Deleting(key, _) => Detach(s, t, Deleting(key, true))
       case Cleaning(stale, _) => Detach(s, t, Cleaning(stale, true))
       case _ => End(s, t))
    case Crash => s.(tasks := map[], writer := None, readers := {})
    case Sweep(doomed) => s.(files := s.files - doomed)
    case Recover =>
      if NothingMissing(s) then
        s.(files := map b | b in s.files && b in Referenced(s) :: s.files[b], temporary := {})
      else s
  }

  /** What a media read gets: the bytes, or an error. */
  predicate Found(s: State, row: Row) {
    row.blob in s.files && s.files[row.blob] == row.content
  }

  /** Recovery as it runs: every referenced blob is looked for before any file is
      removed, then the directory is read and what no row names is deleted. */
  method RecoverBlobs(s: State, referenced: seq<Id>, listing: seq<Id>) returns (r: Result<State, Status>)
    requires s.tasks == map[]
    requires (forall b :: b in referenced <==> b in Referenced(s)) && (forall b :: b in listing <==> b in s.files)
    ensures r.Success? <==> NothingMissing(s)
    ensures r.Success? ==> r.value == Apply(s, Recover)
  {
    for i := 0 to |referenced|
      invariant forall j :: 0 <= j < i ==> referenced[j] in s.files
    {
      if referenced[i] !in s.files {
        assert referenced[i] in Referenced(s);
        return Failure(Internal);
      }
    }
    assert NothingMissing(s) by {
      forall k | k in s.rows ensures s.rows[k].blob in s.files {
        assert s.rows[k].blob in Referenced(s);
        assert s.rows[k].blob in referenced;
      }
    }
    var files := s.files;
    for i := 0 to |listing|
      invariant forall b :: b in files <==> b in s.files && (b in listing[..i] ==> b in referenced)
      invariant forall b :: b in files ==> files[b] == s.files[b]
    {
      if listing[i] !in referenced { files := files - {listing[i]}; }
    }
    assert listing[..|listing|] == listing;
    r := Success(s.(files := files, temporary := {}));
  }

  // ----- The invariant -----------------------------------------------------

  predicate RowsHold(s: State) {
    && (forall k :: k in s.rows ==>
          Found(s, s.rows[k]) && s.rows[k].blob in s.used && 0 < s.rows[k].generation <= s.counter)
    && (forall k, l :: k in s.rows && l in s.rows && s.rows[k].blob == s.rows[l].blob ==> k == l)
    && 0 <= s.counter
  }

  predicate Unreferenced(s: State, blob: Id) {
    forall k :: k in s.rows ==> s.rows[k].blob != blob
  }

  predicate TaskHolds(s: State, t: int, task: Task) {
    match task
    case Writing(_, blob, _, _) => blob in s.used && Unreferenced(s, blob) && s.writer != Some(t) && t !in s.readers
    case Renamed(_, blob, content) =>
      blob in s.used && Unreferenced(s, blob) && blob in s.files && s.files[blob] == content
      && s.writer != Some(t) && t !in s.readers
    case Saving(_, blob, content, detached) =>
      blob in s.used && Unreferenced(s, blob) && blob in s.files && s.files[blob] == content
      && (s.writer == Some(t) <==> !detached) && t !in s.readers
    case Deleting(_, detached) => (s.writer == Some(t) <==> !detached) && t !in s.readers
    case Cleaning(stale, detached) =>
      && (s.writer == Some(t) <==> !detached) && t !in s.readers
      && (stale.Some? ==> stale.value in s.used && Unreferenced(s, stale.value))
    case Reading(_) => t in s.readers && s.writer != Some(t)
    case Loading(row) => t in s.readers && s.writer != Some(t) && Found(s, row) && row.blob in s.used
  }

  /** A save that still owns its blob: no row names it yet. */
  predicate Owns(task: Task) {
    task.Writing? || task.Renamed? || task.Saving?
  }

  /** No save owns a blob that another save owns, is being cleaned up or is being
      read, and none that is being read is being cleaned up. */
  predicate Disjoint(a: Task, b: Task) {
    && (Owns(b) ==>
          && (Owns(a) ==> a.blob != b.blob)
          && (a.Cleaning? && a.stale.Some? ==> a.stale.value != b.blob)
          && (a.Loading? ==> a.row.blob != b.blob))
    && (a.Cleaning? && a.stale.Some? && b.Loading? ==> a.stale.value != b.row.blob)
  }

  predicate TasksHold(s: State) {
    && (forall t :: t in s.tasks ==> TaskHolds(s, t, s.tasks[t]))
    && (forall t, u :: t in s.tasks && u in s.tasks && t != u ==> Disjoint(s.tasks[t], s.tasks[u]))
  }

  predicate GuardHolds(s: State) {
    && (s.writer.Some? ==> s.readers == {} && s.writer.value in s.tasks)
    && (forall t :: t in s.readers ==> t in s.tasks && (s.tasks[t].Reading? || s.tasks[t].Loading?))
  }

  predicate Consistent(s: State) {
    RowsHold(s) && TasksHold(s) && GuardHolds(s)
  }
}
