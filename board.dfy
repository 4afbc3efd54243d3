/**
 * The page's `state`: one task list that the four handlers update in place.
 * After every change the list is written to storage and the zones are drawn
 * again; a handler that changes nothing does neither.
 */
module Board {
  import opened Wrappers
  import opened Vocab
  import opened Text
  import opened JsonValue
  import opened Tasks
  import opened Storage
  import opened ZoneView
  import opened Controller

  class TaskBoard {
    /** `state.tasks`. */
    var tasks: seq<Task>
    /** The zones whose drop target exists in the page. */
    const present: set<Zone>
    /** The last record this page wrote to storage, if it wrote one. */
    ghost var saved: Option<Json>
    /** What the zones currently show. */
    ghost var shown: seq<ZoneCards>

    /** Tasks are well formed, storage holds them once written, and the zones show them. */
    ghost predicate Valid()
      reads this
    {
      && WellFormed(tasks)
      && (saved.Some? ==> saved.value == Encode(tasks))
      && shown == Render(tasks, present)
    }

    /** `let state = loadState()` followed by the first `render()`. */
    constructor (stored: Stored, now: int, present: set<Zone>)
      ensures Valid()
      ensures tasks == LoadState(stored, now) && this.present == present && saved == None
    {
      tasks := LoadState(stored, now);
      this.present := present;
      saved := None;
      shown := Render(LoadState(stored, now), present);
    }

    /** `saveState()`. */
    method Save()
      modifies this
      ensures saved == Some(Encode(tasks))
      ensures tasks == old(tasks) && shown == old(shown)
    {
      saved := Some(Encode(tasks));
    }

    /** `render()`. */
    method Redraw()
      modifies this
      ensures shown == Render(tasks, present)
      ensures tasks == old(tasks) && saved == old(saved)
    {
      shown := Render(tasks, present);
    }

    /** `addTask(tag, text)`, with the id `uid()` and the time `Date.now()` would give. */
    method AddTask(tag: string, text: string, id: string, now: int)
      requires Valid()
      modifies this
      ensures Valid()
      ensures tasks == Added(old(tasks), tag, text, id, now)
      ensures Blank(text) ==> unchanged(this)
      ensures !Blank(text) ==> saved == Some(Encode(tasks))
    {
      var cleaned := Trim(text);
      if cleaned == [] {
        return;
      }
      tasks := tasks + [Task(id, Clamp(cleaned), TagOrLight(tag), Unassigned, false, now)];
      AddedKeepsInvariants(old(tasks), tag, text, id, now);
      Save();
      Redraw();
    }

    /** `toggleCompleted(taskId)`. */
    method ToggleCompleted(taskId: string)
      requires Valid()
      modifies this
      ensures Valid()
      ensures tasks == Toggled(old(tasks), taskId)
      ensures FirstWithId(old(tasks), taskId).None? ==> unchanged(this)
      ensures FirstWithId(old(tasks), taskId).Some? ==> saved == Some(Encode(tasks))
    {
      var found := FirstWithId(tasks, taskId);
      if found.None? {
        return;
      }
      var i := found.value;
      tasks := tasks[i := tasks[i].(completed := !tasks[i].completed)];
      OperationsKeepWellFormed(old(tasks), taskId, "");
      Save();
      Redraw();
    }

    /** `moveTask(taskId, zone)`, with the zone as the drop target spells it. */
    method MoveTask(taskId: string, zone: string)
      requires Valid()
      modifies this
      ensures Valid()
      ensures tasks == Moved(old(tasks), taskId, zone)
      ensures FirstWithId(old(tasks), taskId).None? || ParseZone(zone).None? ==> unchanged(this)
      ensures FirstWithId(old(tasks), taskId).Some? && ParseZone(zone).Some? ==>
        saved == Some(Encode(tasks))
    {
      var found := FirstWithId(tasks, taskId);
      if found.None? {
        return;
      }
      var z := ParseZone(zone);
      if z.None? {
        return;
      }
      var i := found.value;
      tasks := tasks[i := tasks[i].(zone := z.value)];
      OperationsKeepWellFormed(old(tasks), taskId, zone);
      Save();
      Redraw();
    }

    /** `clearCompleted()`: saves and redraws only when the count dropped. */
    method ClearCompleted()
      requires Valid()
      modifies this
      ensures Valid()
      ensures tasks == Pending(old(tasks))
      ensures (forall i :: 0 <= i < |old(tasks)| ==> !old(tasks)[i].completed) ==> unchanged(this)
      ensures (exists i :: 0 <= i < |old(tasks)| && old(tasks)[i].completed) ==>
        saved == Some(Encode(tasks))
    {
      var before := |tasks|;
      tasks := Pending(tasks);
      var after := |tasks|;
      PendingSameLength(old(tasks));
      OperationsKeepWellFormed(old(tasks), "", "");
      if before != after {
        Save();
        Redraw();
      }
    }
  }

  /**
   * The walk-through on a live board: add "Write spec" tagged deep, toggle it,
   * drop it on "do", clear completed tasks. The board stays valid, the task is
   * gone from every zone, and what is stored is the list that remains.
   */
  method WalkThroughOnBoard(b: TaskBoard, id: string, now: int)
    requires b.Valid() && id !in Ids(b.tasks)
    modifies b
    ensures b.Valid()
    ensures forall z: Zone, t :: t in GetTasksInZone(b.tasks, z) ==> t.id != id
    ensures b.saved == Some(Encode(b.tasks))
  {
    var s := b.tasks;
    WalkThroughMove(s, id, now);
    b.AddTask("deep", "Write spec", id, now);
    b.ToggleCompleted(id);
    b.MoveTask(id, "do");
    ClearRemovesCompletedId(b.tasks, id, |s|);
    b.ClearCompleted();
  }
}
