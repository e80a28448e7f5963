/**
 The file-based task board, one operation at a time.

 A task is a file, and an operation moves it by writing the new file and then removing the old one. Any file operation
 may fail, the share may be healthy or down, and the process may die before any of them. No task id is ever lost; and
 each operation does what it is for when nothing fails.
 */
module TaskBoard {

  import opened Wrappers

  /** task-001 and so on, and the subtasks task-001-a, task-001-b, ... of a decomposed task. */
  datatype TaskId = Task(number: nat) | SubTask(of: TaskId, index: nat)

  datatype Record = Record(claimedBy: string, retries: nat, parent: Option<TaskId>, subtasks: seq<TaskId>,
                           completedBy: string, result: string)

  function NewRecord(parent: Option<TaskId>): Record {
    Record("", 0, parent, [], "", "")
  }

  datatype Dir = Pending | Claimed | Completed | Decomposed | LocalClaimed | LocalCompleted

  type Files = map<(Dir, TaskId), Record>

  /** The ids that some directory knows. */
  ghost function Ids(files: Files): set<TaskId> {
    set k | k in files :: k.1
  }

  /** The tasks that a directory has a file of. */
  function IdsIn(files: Files, d: Dir): (r: set<TaskId>)
    ensures forall i :: i in r <==> (d, i) in files
  {
    set k | k in files && k.0 == d :: k.1
  }

  predicate Holds(files: Files, d: Dir, id: TaskId, r: Record) {
    (d, id) in files && files[(d, id)] == r
  }

  /** No file of any other task was touched. */
  ghost predicate SameOutside(a: Files, b: Files, ids: set<TaskId>) {
    forall d: Dir, i: TaskId {:trigger (d, i) in b} :: i !in ids ==>
      ((d, i) in a <==> (d, i) in b) && ((d, i) in a ==> a[(d, i)] == b[(d, i)])
  }

  lemma SameOutsideBoth(a: Files, b: Files, c: Files, ids: set<TaskId>, more: set<TaskId>)
    requires SameOutside(a, b, ids) && SameOutside(b, c, more)
    ensures SameOutside(a, c, ids + more)
  {
    forall d: Dir, i | i !in ids + more
      ensures (d, i) in a <==> (d, i) in c
      ensures (d, i) in a ==> a[(d, i)] == c[(d, i)]
    {
      assert (d, i) in b <==> (d, i) in c;
    }
  }

  /** Where a task that is to be completed is looked up: the share first. */
  function ClaimedIn(files: Files, id: TaskId): Dir {
    if (Claimed, id) !in files && (LocalClaimed, id) in files then LocalClaimed else Claimed
  }

  /** The parent that the claimed task names, if it is claimed and names one. */
  function ParentOf(files: Files, id: TaskId): set<TaskId> {
    var k := (ClaimedIn(files, id), id);
    if k in files && files[k].parent.Some? then {files[k].parent.value} else {}
  }

  /** The record is in its new directory and the old file is gone, or the share was down and it is in the local one. */
  predicate IsMoved(files: Files, from: Dir, to: Dir, local: Dir, id: TaskId, r: Record, healthy: bool) {
    (Holds(files, to, id, r) && (from, id) !in files) || (!healthy && Holds(files, local, id, r))
  }

  function CompletedRecord(r: Record, host: string, result: string): Record {
    r.(completedBy := host, result := if result == "" then r.result else result)
  }

  /**
   What a completion without failures has done: the task has moved, with its completer and result, and a decomposed
   parent has moved as well if this was the last of its subtasks, and only then.
   */
  ghost predicate IsCompleted(before: Files, after: Files, id: TaskId, r: Record, host: string, result: string) {
    && (r.parent != Some(id) ==> Holds(after, Completed, id,
          r.(completedBy := host, result := if result == "" then r.result else result)))
    && (r.parent.Some? && (Decomposed, r.parent.value) in before ==>
         var p, parent := r.parent.value, before[(Decomposed, r.parent.value)];
         if parent.subtasks != [] && forall s :: s in parent.subtasks ==> s == id || (Completed, s) in before then
           (Decomposed, p) !in after && Holds(after, Completed, p, parent.(completedBy := "auto"))
         else Holds(after, Decomposed, p, parent))
  }

  /** The number in a file name: a subtask carries the number of the task it was split from. */
  function NumberOf(id: TaskId): nat {
    match id
    case Task(n) => n
    case SubTask(of, _) => NumberOf(of)
  }

  const SCANNED: set<Dir> := {Pending, Claimed, Completed}

  /** One more than the highest number that the scanned directories hold, or 1. */
  ghost predicate IsNextNumber(files: Files, n: nat) {
    && n >= 1
    && (forall k :: k in files && k.0 in SCANNED ==> NumberOf(k.1) < n)
    && (n > 1 ==> exists k :: k in files && k.0 in SCANNED && NumberOf(k.1) == n - 1)
  }

  /** There are subtasks, and all of them are completed. */
  predicate AllDone(files: Files, subtasks: seq<TaskId>) {
    subtasks != [] && forall i :: 0 <= i < |subtasks| ==> (Completed, subtasks[i]) in files
  }

  /** The ids of the subtasks of a task, in order. */
  function PartList(id: TaskId, parts: nat): (r: seq<TaskId>)
    ensures |r| == parts && forall i :: 0 <= i < parts ==> r[i] == SubTask(id, i)
  {
    if parts == 0 then [] else PartList(id, parts - 1) + [SubTask(id, parts - 1)]
  }

  ghost function Parts(id: TaskId, parts: nat): set<TaskId> {
    set i | 0 <= i < parts :: SubTask(id, i)
  }

  /** The first subtasks are pending, each naming its parent. */
  ghost predicate PartsWritten(files: Files, id: TaskId, parts: nat) {
    forall i :: 0 <= i < parts ==> Holds(files, Pending, SubTask(id, i), Record("", 0, Some(id), [], "", ""))
  }

  /** What writing one more subtask keeps and adds. */
  lemma NextPart(start: Files, before: Files, after: Files, id: TaskId, i: nat)
    requires SameOutside(start, before, Parts(id, i)) && SameOutside(before, after, {SubTask(id, i)})
    requires PartsWritten(before, id, i)
    ensures Parts(id, i + 1) == Parts(id, i) + {SubTask(id, i)} && SameOutside(start, after, Parts(id, i + 1))
    ensures Holds(after, Pending, SubTask(id, i), NewRecord(Some(id))) ==> PartsWritten(after, id, i + 1)
  {
    forall j | 0 <= j < i ensures Holds(after, Pending, SubTask(id, j), NewRecord(Some(id))) {
      assert Holds(before, Pending, SubTask(id, j), NewRecord(Some(id)));
    }
    forall d: Dir, x: TaskId | x !in Parts(id, i + 1)
      ensures (d, x) in start <==> (d, x) in after
      ensures (d, x) in start ==> start[(d, x)] == after[(d, x)]
    {
    }
  }

  const MAX_RETRIES: nat := 3

  predicate IsRequeued(r: Record, cleaned: set<string>) {
    r.claimedBy in cleaned && r.retries + 1 <= MAX_RETRIES
  }

  function GivenBack(r: Record): Record {
    r.(claimedBy := "", retries := r.retries + 1)
  }

  /**
   What a sweep leaves of a claimed task: as it was, or pending with nobody's name and one retry more. It is the second
   only for a task of a cleaned host that has retries left, and if nothing fails for each of them.
   */
  ghost predicate Swept(before: Files, after: Files, id: TaskId, cleaned: set<string>, clean: bool)
    requires (Claimed, id) in before
  {
    var r := before[(Claimed, id)];
    && (forall d :: (d, id) in before && d != Claimed ==> (d, id) in after)
    && (forall d :: (d, id) in after && d != Pending ==> Holds(before, d, id, after[(d, id)]))
    && ((Claimed, id) !in after ==> r.claimedBy in cleaned && r.retries < 3)
    && ((Claimed, id) !in after ==> Holds(after, Pending, id, r.(claimedBy := "", retries := r.retries + 1)))
    && (clean && r.claimedBy in cleaned && r.retries < 3 ==> (Claimed, id) !in after)
  }

  ghost predicate AllSwept(before: Files, after: Files, done: set<TaskId>, cleaned: set<string>, clean: bool) {
    && SameOutside(before, after, done)
    && forall i :: i in done ==> (Claimed, i) in before && Swept(before, after, i, cleaned, clean)
  }

  lemma SweepsOne(start: Files, before: Files, after: Files, id: TaskId, done: set<TaskId>, cleaned: set<string>,
                  was: bool, clean: bool)
    requires AllSwept(start, before, done, cleaned, was) && id !in done && (clean ==> was)
    requires (Claimed, id) in start && (Claimed, id) in before
    requires SameOutside(before, after, {id}) && Swept(before, after, id, cleaned, clean)
    ensures AllSwept(start, after, done + {id}, cleaned, clean)
  {
    forall i | i in done ensures Swept(start, after, i, cleaned, clean) {
      assert Swept(start, before, i, cleaned, was);
      SameSwept(start, before, start, after, i, cleaned, was, clean);
    }
    SameSwept(before, after, start, after, id, cleaned, clean, clean);
  }

  lemma EverythingSwept(before: Files, after: Files, done: set<TaskId>, all: set<TaskId>, cleaned: set<string>,
                        clean: bool)
    requires AllSwept(before, after, done, cleaned, clean) && done <= all && (clean ==> done == all)
    ensures SameOutside(before, after, all)
    ensures forall i :: i in all && (Claimed, i) in before ==> Swept(before, after, i, cleaned, clean)
  {
    forall i | i in all && (Claimed, i) in before ensures Swept(before, after, i, cleaned, clean) {
      if i !in done {
        assert SameOf(before, after, i);
      }
    }
  }

  lemma SameSwept(b1: Files, a1: Files, b2: Files, a2: Files, i: TaskId, cleaned: set<string>, was: bool, clean: bool)
    requires (Claimed, i) in b1 && (Claimed, i) in b2 && Swept(b1, a1, i, cleaned, was) && (clean ==> was)
    requires SameOf(b1, b2, i) && SameOf(a1, a2, i)
    ensures Swept(b2, a2, i, cleaned, clean)
  {
    forall d | (d, i) in b2 && d != Claimed ensures (d, i) in a2 {
      assert (d, i) in b1;
    }
    forall d | (d, i) in a2 && d != Pending ensures Holds(b2, d, i, a2[(d, i)]) {
      assert (d, i) in a1 && Holds(b1, d, i, a1[(d, i)]);
    }
  }

  ghost predicate SameOf(a: Files, b: Files, i: TaskId) {
    forall d: Dir {:trigger (d, i) in b} :: ((d, i) in a <==> (d, i) in b) && ((d, i) in a ==> a[(d, i)] == b[(d, i)])
  }

  /** What a file brought back leaves of a task. */
  ghost predicate IsBrought(before: Files, after: Files, local: Dir, shared: Dir, id: TaskId, clean: bool)
    requires (local, id) in before
  {
    && ((local, id) !in after ==> (shared, id) in after)
    && (forall d :: (d, id) in before && d != local ==> Holds(after, d, id, before[(d, id)]))
    && (clean ==> IsBack(before, after, local, shared, id))
  }

  ghost predicate AllBrought(before: Files, after: Files, local: Dir, shared: Dir, done: set<TaskId>, clean: bool) {
    && SameOutside(before, after, done)
    && forall i :: i in done ==> (local, i) in before && IsBrought(before, after, local, shared, i, clean)
  }

  lemma BringsOne(start: Files, before: Files, after: Files, local: Dir, shared: Dir, id: TaskId, done: set<TaskId>,
                  was: bool, clean: bool)
    requires AllBrought(start, before, local, shared, done, was) && id !in done && (clean ==> was)
    requires (local, id) in start && (local, id) in before
    requires SameOutside(before, after, {id}) && IsBrought(before, after, local, shared, id, clean)
    ensures AllBrought(start, after, local, shared, done + {id}, clean)
  {
    forall i | i in done ensures IsBrought(start, after, local, shared, i, clean) {
      assert IsBrought(start, before, local, shared, i, was);
      SameBrought(start, before, start, after, local, shared, i, was, clean);
    }
    SameBrought(before, after, start, after, local, shared, id, clean, clean);
  }

  lemma SameBrought(b1: Files, a1: Files, b2: Files, a2: Files, local: Dir, shared: Dir, i: TaskId, was: bool,
                    clean: bool)
    requires (local, i) in b1 && (local, i) in b2 && IsBrought(b1, a1, local, shared, i, was) && (clean ==> was)
    requires SameOf(b1, b2, i) && SameOf(a1, a2, i)
    ensures IsBrought(b2, a2, local, shared, i, clean)
  {
    forall d | (d, i) in b2 && d != local ensures Holds(a2, d, i, b2[(d, i)]) {
      assert (d, i) in b1 && Holds(a1, d, i, b1[(d, i)]);
    }
  }

  lemma EverythingBrought(before: Files, after: Files, local: Dir, shared: Dir, done: set<TaskId>, clean: bool)
    requires AllBrought(before, after, local, shared, done, clean)
    ensures forall i :: i in done ==> (local, i) in before && IsBrought(before, after, local, shared, i, clean)
    ensures forall d, i :: (d, i) in before && d != local ==> Holds(after, d, i, before[(d, i)])
  {
    forall d, i | (d, i) in before && d != local ensures Holds(after, d, i, before[(d, i)]) {
      assert i in done ==> IsBrought(before, after, local, shared, i, clean);
      assert i !in done ==> (d, i) in after;
    }
  }

  /** The local file is gone, and the share has what it held unless it had the task before. */
  ghost predicate IsBack(before: Files, after: Files, local: Dir, shared: Dir, id: TaskId)
    requires (local, id) in before
  {
    (local, id) !in after && ((shared, id) in before || Holds(after, shared, id, before[(local, id)]))
  }

  class Board {
    var files: Files
    var alive: bool              // the operating process has not died
    ghost var clean: bool        // nor has an operation on a file failed
    ghost var localClean: bool   // nor has one on a file of a local directory

    constructor ()
      ensures files == map[] && alive && clean && localClean
    {
      files, alive, clean, localClean := map[], true, true, true;
    }

    /** Write a file, replacing what was there; it may fail, and a dead process does nothing. */
    method Write(d: Dir, id: TaskId, r: Record) returns (ok: bool)
      modifies this
      ensures files == if ok then old(files)[(d, id) := r] else old(files)
      ensures ok ==> alive
      ensures alive ==> old(alive)
      ensures clean ==> old(clean) && ok
      ensures localClean ==> old(localClean) && (d.LocalClaimed? || d.LocalCompleted? ==> ok)
    {
      var dies, fails: bool := *, *;
      alive := alive && !dies;
      ok := alive && !fails;
      Note(d, fails);
      if ok {
        files := files[(d, id) := r];
      }
    }

    method Remove(d: Dir, id: TaskId) returns (ok: bool)
      modifies this
      ensures files == if ok then old(files) - {(d, id)} else old(files)
      ensures ok ==> alive && (d, id) in old(files)
      ensures alive ==> old(alive)
      ensures clean ==> old(clean) && ok == ((d, id) in old(files))
      ensures localClean ==> old(localClean)
    {
      var dies, fails: bool := *, *;
      alive := alive && !dies;
      ok := alive && !fails && (d, id) in files;
      Note(d, fails);
      if ok {
        files := files - {(d, id)};
      }
    }

    /** Keep the record of what has failed. */
    ghost method Note(d: Dir, fails: bool)
      modifies this`clean, this`localClean
      ensures clean == (old(clean) && alive && !fails)
      ensures localClean == (old(localClean) && alive && !(fails && (d.LocalClaimed? || d.LocalCompleted?)))
    {
      clean := clean && alive && !fails;
      localClean := localClean && alive && !(fails && (d.LocalClaimed? || d.LocalCompleted?));
    }

    /** One more than the highest number in pending/, claimed/ and completed/. */
    method NextTaskId() returns (id: TaskId)
      ensures id.Task? && IsNextNumber(files, id.number)
    {
      var highest := 0;
      var rest := files.Keys;
      while rest != {}
        invariant rest <= files.Keys
        invariant forall k :: k in files.Keys - rest && k.0 in SCANNED ==> NumberOf(k.1) <= highest
        invariant highest > 0 ==> exists k :: k in files && k.0 in SCANNED && NumberOf(k.1) == highest
      {
        var k :| k in rest;
        if k.0 in SCANNED && NumberOf(k.1) > highest {
          highest := NumberOf(k.1);
        }
        rest := rest - {k};
      }
      id := Task(highest + 1);
    }

    method Create() returns (id: TaskId, ok: bool)
      modifies this
      ensures Ids(files) == Ids(old(files)) + if ok then {id} else {}
      ensures ok ==> forall d :: d in SCANNED ==> (d, id) !in old(files)
      ensures files == if ok then old(files)[(Pending, id) := Record("", 0, None, [], "", "")] else old(files)
      ensures clean ==> ok
    {
      id := NextTaskId();
      ok := Write(Pending, id, NewRecord(None));
    }

    /** `healthy` is what a look at the share says if an operation on it fails. */
    method Claim(id: TaskId, host: string, healthy: bool) returns (ok: bool)
      modifies this
      ensures Ids(files) == Ids(old(files))
      ensures SameOutside(old(files), files, {id})
      ensures ok ==> (Pending, id) in old(files)
      ensures ok ==>
        IsMoved(files, Pending, Claimed, LocalClaimed, id, old(files)[(Pending, id)].(claimedBy := host), healthy)
      ensures (Pending, id) !in old(files) ==> !ok && files == old(files)
      ensures clean && (Pending, id) in old(files) ==> ok && (Pending, id) !in files
      ensures clean && ok ==> Holds(files, Claimed, id, old(files)[(Pending, id)].(claimedBy := host))
      ensures localClean && !healthy && (Pending, id) in old(files) ==> ok
    {
      if (Pending, id) !in files {
        return false;
      }
      var r := files[(Pending, id)].(claimedBy := host);
      ok := Move(Pending, Claimed, LocalClaimed, id, r, healthy);
    }

    /** Write to the new directory, and if that worked remove the old file. */
    method WriteThenRemove(from: Dir, to: Dir, id: TaskId, r: Record) returns (written: bool, removed: bool)
      requires (from, id) in files && to != from
      modifies this
      ensures files == if removed then old(files)[(to, id) := r] - {(from, id)}
                       else if written then old(files)[(to, id) := r] else old(files)
      ensures Ids(files) == Ids(old(files))
      ensures removed ==> written
      ensures alive ==> old(alive)
      ensures clean ==> old(clean) && removed
      ensures localClean ==> old(localClean) && (to.LocalClaimed? || to.LocalCompleted? ==> written)
    {
      written := Write(to, id, r);
      MoveKeepsIds(old(files), from, to, id, r, written, false);
      removed := false;
      if written {
        removed := Remove(from, id);
        MoveKeepsIds(old(files), from, to, id, r, true, removed);
      }
    }

    /** Move a file. If that fails and the share is down, write it to the local directory and still try the remove. */
    method Move(from: Dir, to: Dir, local: Dir, id: TaskId, r: Record, healthy: bool) returns (ok: bool)
      requires (from, id) in files && to != from && local != from
      modifies this
      ensures Ids(files) == Ids(old(files))
      ensures SameOutside(old(files), files, {id})
      ensures ok ==> IsMoved(files, from, to, local, id, r, healthy)
      ensures (from, id) !in files ==> Holds(files, to, id, r) || Holds(files, local, id, r)
      ensures clean ==> old(clean) && ok && files == old(files)[(to, id) := r] - {(from, id)}
      ensures localClean && !healthy && (local.LocalClaimed? || local.LocalCompleted?) ==> ok
    {
      var removed;
      ok, removed := Replace(from, to, id, r);
      if !removed {
        ok := false;
        if !healthy {
          ok, removed := Replace(from, local, id, r);
        }
      }
    }

    /** What the move needs to know of writing and removing. */
    method Replace(from: Dir, to: Dir, id: TaskId, r: Record) returns (written: bool, removed: bool)
      requires (from, id) in files && to != from
      modifies this
      ensures Ids(files) == Ids(old(files))
      ensures SameOutside(old(files), files, {id})
      ensures written ==> Holds(files, to, id, r)
      ensures removed <==> (from, id) !in files
      ensures removed ==> written
      ensures clean ==> old(clean) && removed && files == old(files)[(to, id) := r] - {(from, id)}
      ensures localClean ==> old(localClean) && (to.LocalClaimed? || to.LocalCompleted? ==> written)
    {
      written, removed := WriteThenRemove(from, to, id, r);
    }

    /** Complete a claimed task, which may have been claimed locally, and look at its parent. */
    method Complete(id: TaskId, host: string, result: string, healthy: bool) returns (ok: bool)
      modifies this
      ensures Ids(files) == Ids(old(files))
      ensures SameOutside(old(files), files, {id} + ParentOf(old(files), id))
      ensures ok ==> (ClaimedIn(old(files), id), id) in old(files)
      ensures ok && id !in ParentOf(old(files), id) ==> var from := ClaimedIn(old(files), id);
        IsMoved(files, from, Completed, LocalCompleted, id,
                CompletedRecord(old(files)[(from, id)], host, result), healthy)
      ensures (Claimed, id) !in old(files) && (LocalClaimed, id) !in old(files) ==> !ok && files == old(files)
      ensures clean ==> (ok <==> (Claimed, id) in old(files) || (LocalClaimed, id) in old(files))
      ensures clean && (Claimed, id) in old(files) ==>
        (Claimed, id) !in files && IsCompleted(old(files), files, id, old(files)[(Claimed, id)], host, result)
      ensures clean && (Claimed, id) !in old(files) && (LocalClaimed, id) in old(files) ==>
        (LocalClaimed, id) !in files && IsCompleted(old(files), files, id, old(files)[(LocalClaimed, id)], host, result)
      ensures localClean && !healthy && ((Claimed, id) in old(files) || (LocalClaimed, id) in old(files)) ==> ok
    {
      var from := ClaimedIn(files, id);
      if (from, id) !in files {
        return false;
      }
      var r := files[(from, id)];
      ghost var parents := ParentOf(files, id);
      ok := Move(from, Completed, LocalCompleted, id, CompletedRecord(r, host, result), healthy);
      ghost var moved := files;
      if ok && r.parent.Some? {
        var auto := CheckParent(r.parent.value);
      }
      SameOutsideBoth(old(files), moved, files, {id}, parents);
    }

    /** Complete a decomposed task once all its subtasks are in completed/; otherwise nothing is touched. */
    method CheckParent(parent: TaskId) returns (auto: bool)
      modifies this
      ensures Ids(files) == Ids(old(files))
      ensures SameOutside(old(files), files, {parent})
      ensures forall d, i :: (d, i) in old(files) && (d, i) != (Decomposed, parent) ==> (d, i) in files
      ensures files != old(files) || auto ==> (Decomposed, parent) in old(files)
      ensures files != old(files) || auto ==> AllDone(old(files), old(files)[(Decomposed, parent)].subtasks)
      ensures files != old(files) || auto ==>
        Holds(files, Completed, parent, old(files)[(Decomposed, parent)].(completedBy := "auto"))
      ensures auto <==> (Decomposed, parent) in old(files) && (Decomposed, parent) !in files
      ensures clean && (Decomposed, parent) in old(files) ==>
        var subtasks := old(files)[(Decomposed, parent)].subtasks;
        auto <==> subtasks != [] && forall s :: s in subtasks ==> (Completed, s) in old(files)
      ensures clean ==> old(clean)
      ensures clean ==> if auto
        then files == old(files)[(Completed, parent) := old(files)[(Decomposed, parent)].(completedBy := "auto")]
                      - {(Decomposed, parent)}
        else files == old(files)
    {
      auto := false;
      if (Decomposed, parent) in files {
        var r := files[(Decomposed, parent)];
        var i := 0;
        while i < |r.subtasks| && (Completed, r.subtasks[i]) in files
          invariant i <= |r.subtasks| && forall j :: 0 <= j < i ==> (Completed, r.subtasks[j]) in files
        {
          i := i + 1;
        }
        if r.subtasks != [] && i == |r.subtasks| {
          var written;
          written, auto := WriteThenRemove(Decomposed, Completed, parent, r.(completedBy := "auto"));
        }
      }
    }

    /** Split a pending task: the subtask files first, then the task itself moves to decomposed/. */
    method Decompose(id: TaskId, parts: nat) returns (ok: bool)
      modifies this
      ensures Ids(old(files)) <= Ids(files) <= Ids(old(files)) + Parts(id, parts)
      ensures SameOutside(old(files), files, {id} + Parts(id, parts))
      ensures ok ==> (Pending, id) in old(files) && (Pending, id) !in files
      ensures ok ==> Holds(files, Decomposed, id, old(files)[(Pending, id)].(subtasks := PartList(id, parts)))
      ensures ok ==> PartsWritten(files, id, parts)
      ensures (Pending, id) !in old(files) ==> !ok && files == old(files)
      ensures clean && (Pending, id) in old(files) ==> ok
    {
      if (Pending, id) !in files {
        return false;
      }
      var r := files[(Pending, id)];
      var subtasks;
      subtasks, ok := WriteParts(id, parts);
      if ok {
        var written;
        written, ok := WriteThenRemove(Pending, Decomposed, id, r.(subtasks := subtasks));
      }
    }

    method WritePart(id: TaskId, i: nat) returns (ok: bool)
      modifies this
      ensures Ids(old(files)) <= Ids(files) <= Ids(old(files)) + {SubTask(id, i)}
      ensures SameOutside(old(files), files, {SubTask(id, i)})
      ensures ok ==> Holds(files, Pending, SubTask(id, i), NewRecord(Some(id)))
      ensures clean ==> old(clean) && ok
    {
      ok := Write(Pending, SubTask(id, i), NewRecord(Some(id)));
    }

    method WriteParts(id: TaskId, parts: nat) returns (subtasks: seq<TaskId>, ok: bool)
      modifies this
      ensures Ids(old(files)) <= Ids(files) <= Ids(old(files)) + Parts(id, parts)
      ensures SameOutside(old(files), files, Parts(id, parts))
      ensures ok ==> subtasks == PartList(id, parts) && PartsWritten(files, id, parts)
      ensures clean ==> old(clean) && ok
    {
      subtasks, ok := [], true;
      for i := 0 to parts
        invariant subtasks == PartList(id, i) && PartsWritten(files, id, i)
        invariant Ids(old(files)) <= Ids(files) <= Ids(old(files)) + Parts(id, i)
        invariant SameOutside(old(files), files, Parts(id, i))
        invariant ok && (clean ==> old(clean))
      {
        ghost var before := files;
        ok := WritePart(id, i);
        NextPart(old(files), before, files, id, i);
        if !ok {
          return;
        }
        subtasks := subtasks + [SubTask(id, i)];
      }
    }

    method RequeueOne(id: TaskId, cleaned: set<string>) returns (ok: bool)
      requires (Claimed, id) in files
      modifies this
      ensures Ids(files) == Ids(old(files))
      ensures SameOutside(old(files), files, {id})
      ensures Swept(old(files), files, id, cleaned, clean)
      ensures clean ==> old(clean) && ok
    {
      ok := true;
      if IsRequeued(files[(Claimed, id)], cleaned) {
        var written;
        written, ok := WriteThenRemove(Claimed, Pending, id, GivenBack(files[(Claimed, id)]));
      }
    }

    method RequeueNext(id: TaskId, cleaned: set<string>, ghost start: Files, ghost done: set<TaskId>) returns (ok: bool)
      requires (Claimed, id) in start && id !in done && AllSwept(start, files, done, cleaned, clean)
      modifies this
      ensures Ids(files) == Ids(old(files))
      ensures AllSwept(start, files, done + {id}, cleaned, clean)
      ensures clean ==> ok
    {
      ghost var before, was := files, clean;
      ok := RequeueOne(id, cleaned);
      SweepsOne(start, before, files, id, done, cleaned, was, clean);
    }

    /** Give the tasks of dead hosts back to pending/, at most three times each; an error stops the round. */
    method RequeueOrphans(cleaned: set<string>)
      modifies this
      ensures Ids(files) == Ids(old(files))
      ensures SameOutside(old(files), files, IdsIn(old(files), Claimed))
      ensures forall i :: (Claimed, i) in old(files) ==> Swept(old(files), files, i, cleaned, clean)
    {
      var rest := IdsIn(files, Claimed);
      ghost var done := {};
      ghost var all := rest;
      var ok := true;
      while rest != {} && ok
        invariant all == rest + done && rest !! done
        invariant forall i :: i in all ==> (Claimed, i) in old(files)
        invariant AllSwept(old(files), files, done, cleaned, clean)
        invariant Ids(files) == Ids(old(files)) && (clean ==> ok)
        decreases |rest|
      {
        var id :| id in rest;
        ok := RequeueNext(id, cleaned, old(files), done);
        rest, done := rest - {id}, done + {id};
      }
      EverythingSwept(old(files), files, done, all, cleaned, clean);
    }

    /** Bring one local file back, unless the share has the task there already. */
    method ReconcileOne(local: Dir, shared: Dir, id: TaskId)
      requires local != shared && (local, id) in files
      modifies this
      ensures Ids(files) == Ids(old(files))
      ensures SameOutside(old(files), files, {id})
      ensures IsBrought(old(files), files, local, shared, id, clean)
      ensures clean ==> old(clean)
    {
      var r := files[(local, id)];
      var there := (shared, id) in files;
      if !there {
        there := Write(shared, id, r);
        MoveKeepsIds(old(files), local, shared, id, r, there, false);
      }
      if there {
        var removed := Remove(local, id);
      }
    }

    /** Bring the files of one local directory back to the share. */
    method Reconcile(local: Dir, shared: Dir)
      requires local != shared
      modifies this
      ensures Ids(files) == Ids(old(files))
      ensures forall i :: (local, i) in old(files) ==> IsBrought(old(files), files, local, shared, i, clean)
      ensures forall d, i :: (d, i) in old(files) && d != local ==> Holds(files, d, i, old(files)[(d, i)])
    {
      var rest := IdsIn(files, local);
      ghost var done := {};
      while rest != {}
        invariant IdsIn(old(files), local) == rest + done
        invariant rest !! done && AllBrought(old(files), files, local, shared, done, clean)
        invariant Ids(files) == Ids(old(files))
        decreases |rest|
      {
        var id :| id in rest;
        ghost var before, was := files, clean;
        ReconcileOne(local, shared, id);
        assert id in IdsIn(old(files), local);
        BringsOne(old(files), before, files, local, shared, id, done, was, clean);
        rest, done := rest - {id}, done + {id};
      }
      EverythingBrought(old(files), files, local, shared, done, clean);
    }

    /** Any sequence of operations, each of which may fail or stop half way: every created id stays on the board. */
    method Operate(ops: seq<Operation>) returns (ghost created: set<TaskId>)
      modifies this
      ensures Ids(files) == Ids(old(files)) + created
    {
      created := {};
      for n := 0 to |ops|
        invariant Ids(files) == Ids(old(files)) + created
      {
        ghost var before := Ids(files);
        var ok: bool;
        alive, clean, localClean := true, true, true;
        match ops[n] {
          case CreateOp =>
            var id;
            id, ok := Create();
          case ClaimOp(id, host, healthy) => ok := Claim(id, host, healthy);
          case CompleteOp(id, host, result, healthy) => ok := Complete(id, host, result, healthy);
          case DecomposeOp(id, parts) => ok := Decompose(id, parts);
          case RequeueOp(cleaned) => RequeueOrphans(cleaned);
          case ReconcileOp =>
            Reconcile(LocalClaimed, Claimed);
            Reconcile(LocalCompleted, Completed);
        }
        created := created + (Ids(files) - before);
      }
    }
  }

  datatype Operation =
    | CreateOp
    | ClaimOp(id: TaskId, host: string, healthy: bool)
    | CompleteOp(id: TaskId, host: string, result: string, healthy: bool)
    | DecomposeOp(id: TaskId, parts: nat)
    | RequeueOp(cleaned: set<string>)
    | ReconcileOp

  /** A file removed only after another of the same id was written leaves the ids as they were. */
  lemma MoveKeepsIds(files: Files, from: Dir, to: Dir, id: TaskId, r: Record, written: bool, removed: bool)
    requires id in Ids(files) && from != to
    ensures var f1 := if written then files[(to, id) := r] else files;
      && Ids(f1) == Ids(files)
      && (written && removed ==> Ids(f1 - {(from, id)}) == Ids(files))
  {
  }

  // ---------------------------------------------------------------------------
  // What the operations do not give
  // ---------------------------------------------------------------------------

  /** A new id is unused in the scanned directories; it is taken already exactly when one of the others holds it. */
  lemma NewIdTakenIffUnscanned(files: Files, n: nat)
    requires IsNextNumber(files, n)
    ensures Task(n) in Ids(files) <==>
      (Decomposed, Task(n)) in files || (LocalClaimed, Task(n)) in files || (LocalCompleted, Task(n)) in files
  {
    if Task(n) in Ids(files) {
      var k :| k in files && k.1 == Task(n);
      assert NumberOf(k.1) == n && k.0 !in SCANNED;
      assert k.0 == Decomposed || k.0 == LocalClaimed || k.0 == LocalCompleted;
      assert k == (k.0, Task(n));
    }
    forall d | (d, Task(n)) in files ensures Task(n) in Ids(files) {
      var k := (d, Task(n));
      assert k in files && k.1 == Task(n);
    }
  }

  predicate IsPartOf(id: TaskId, whole: TaskId) {
    id == whole || (id.SubTask? && IsPartOf(id.of, whole))
  }

  lemma {:induction false} PartHasNumber(id: TaskId, n: nat)
    requires IsPartOf(id, Task(n))
    ensures NumberOf(id) == n
  {
    if id.SubTask? {
      PartHasNumber(id.of, n);
    }
  }

  /** No scanned directory has a subtask, at any depth, of the new id either. */
  lemma NewIdHasNoScannedParts(files: Files, n: nat, d: Dir, id: TaskId)
    requires IsNextNumber(files, n) && d in SCANNED && IsPartOf(id, Task(n))
    ensures (d, id) !in files
  {
    PartHasNumber(id, n);
    assert (d, id) in files ==> NumberOf((d, id).1) < n;
  }

  /** And that happens: the only task was claimed while the share was down, so its number is handed out again. */
  lemma NewIdCanBeTaken(r: Record) returns (files: Files)
    ensures IsNextNumber(files, 1) && Task(1) in Ids(files)
  {
    files := map[(LocalClaimed, Task(1)) := r];
    assert (LocalClaimed, Task(1)) in files;
  }
}
