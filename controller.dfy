/**
 * The four user operations on the task list, as functions from the list
 * before to the list after: add a task, toggle its completion, move it to a
 * zone, and clear the completed ones. Each ignores input it cannot act on.
 */
module Controller {
  import opened Wrappers
  import opened Vocab
  import opened Text
  import opened Tasks
  import opened ZoneView

  /** `tasks.find(x => x.id === id)`, as the position of the first task with that id. */
  function FirstWithId(s: seq<Task>, id: string): (r: Option<nat>)
    ensures r.Some? ==> r.value < |s| && s[r.value].id == id
    ensures r.Some? ==> forall j :: 0 <= j < r.value ==> s[j].id != id
    ensures r.None? <==> forall j :: 0 <= j < |s| ==> s[j].id != id
  {
    if s == [] then None
    else if s[0].id == id then Some(0)
    else
      match FirstWithId(s[1..], id)
      case None => None
      case Some(i) => Some(i + 1)
  }

  /** The first task with an id depends on the ids alone. */
  lemma FirstWithIdOnIds(s: seq<Task>, s': seq<Task>, id: string)
    requires |s| == |s'| && forall j :: 0 <= j < |s| ==> s[j].id == s'[j].id
    ensures FirstWithId(s, id) == FirstWithId(s', id)
  {
  }

  /** `!text.trim()`: the input the add handler ignores. */
  predicate Blank(text: string)
    ensures Blank(text) <==> AllSpace(text)
  {
    BlankIffAllSpace(text);
    Trim(text) == []
  }

  /**
   * The task `addTask` creates from non-blank input: unassigned, open, with
   * the first 120 characters of the trimmed text and the selected tag, light
   * if the selector value names no tag.
   */
  function NewTask(tag: string, text: string, id: string, now: int): (t: Task)
    requires !Blank(text)
    ensures t.id == id && t.zone == Unassigned && !t.completed && t.createdAt == now
    ensures t.tag == TagOrLight(tag)
    ensures t.text != [] && |t.text| <= |Trim(text)|
    ensures |t.text| == if |Trim(text)| < MaxTextLength then |Trim(text)| else MaxTextLength
    ensures t.text == Trim(text)[..|t.text|]
  {
    Task(id, Clamp(Trim(text)), TagOrLight(tag), Unassigned, false, now)
  }

  /** `addTask(tag, text)` with the fresh id and the clock reading it uses. */
  function Added(s: seq<Task>, tag: string, text: string, id: string, now: int): (r: seq<Task>)
    ensures Blank(text) ==> r == s
    ensures !Blank(text) ==> |r| == |s| + 1 && r[..|s|] == s && r[|s|] == NewTask(tag, text, id, now)
  {
    if Blank(text) then s else s + [NewTask(tag, text, id, now)]
  }

  /** Adding keeps the list well formed, and keeps ids distinct when the new id is fresh. */
  lemma AddedKeepsInvariants(s: seq<Task>, tag: string, text: string, id: string, now: int)
    requires WellFormed(s)
    ensures WellFormed(Added(s, tag, text, id, now))
    ensures (forall i, j :: 0 <= i < j < |s| ==> s[i].id != s[j].id) && id !in Ids(s) ==>
      var r := Added(s, tag, text, id, now);
      forall i, j :: 0 <= i < j < |r| ==> r[i].id != r[j].id
  {
    var r := Added(s, tag, text, id, now);
    if !Blank(text) {
      assert forall i :: 0 <= i < |s| ==> r[i] == s[i] by {
        forall i | 0 <= i < |s| ensures r[i] == s[i] {
          assert r[..|s|][i] == r[i];
        }
      }
    }
  }

  /** `toggleCompleted(id)`. */
  function Toggled(s: seq<Task>, id: string): (r: seq<Task>)
    ensures |r| == |s|
    ensures forall j :: 0 <= j < |s| ==> r[j].id == s[j].id && r[j].text == s[j].text
    ensures FirstWithId(s, id).None? ==> r == s
    ensures FirstWithId(s, id).Some? ==> var i := FirstWithId(s, id).value;
      && r[i] == s[i].(completed := !s[i].completed)
      && forall j :: 0 <= j < |s| && j != i ==> r[j] == s[j]
  {
    match FirstWithId(s, id)
    case None => s
    case Some(i) => s[i := s[i].(completed := !s[i].completed)]
  }

  /** Toggling the same id twice restores the list. */
  lemma ToggleTwice(s: seq<Task>, id: string)
    ensures Toggled(Toggled(s, id), id) == s
  {
    FirstWithIdOnIds(s, Toggled(s, id), id);
  }

  /** `moveTask(id, zone)` with the zone spelled as the drop target names it. */
  function Moved(s: seq<Task>, id: string, zone: string): (r: seq<Task>)
    ensures |r| == |s|
    ensures forall j :: 0 <= j < |s| ==> r[j].id == s[j].id && r[j].text == s[j].text
    ensures FirstWithId(s, id).None? || ParseZone(zone).None? ==> r == s
    ensures FirstWithId(s, id).Some? && ParseZone(zone).Some? ==> var i := FirstWithId(s, id).value;
      && ZoneName(r[i].zone) == zone
      && r[i] == s[i].(zone := r[i].zone)
      && forall j :: 0 <= j < |s| && j != i ==> r[j] == s[j]
  {
    match FirstWithId(s, id)
    case None => s
    case Some(i) =>
      match ParseZone(zone)
      case None => s
      case Some(z) => s[i := s[i].(zone := z)]
  }

  /** Moving to the same zone again changes nothing. */
  lemma MoveIdempotent(s: seq<Task>, id: string, zone: string)
    ensures Moved(Moved(s, id, zone), id, zone) == Moved(s, id, zone)
  {
    FirstWithIdOnIds(s, Moved(s, id, zone), id);
  }

  /** After a move the task is listed in the zone it was dropped on, wherever it came from. */
  lemma MovedShowsInZone(s: seq<Task>, id: string, z: Zone)
    requires FirstWithId(s, id).Some?
    ensures var r := Moved(s, id, ZoneName(z));
      r[FirstWithId(s, id).value] in GetTasksInZone(r, z)
  {
    var r := Moved(s, id, ZoneName(z));
    GetTasksInZoneSpec(r, z, []);
  }

  /** `tasks.filter(t => !t.completed)`. */
  function Pending(s: seq<Task>): (r: seq<Task>)
    ensures |r| <= |s|
    ensures forall i :: 0 <= i < |r| ==> !r[i].completed
  {
    if s == [] then [] else (if s[0].completed then [] else [s[0]]) + Pending(s[1..])
  }

  /** Clearing keeps exactly the tasks not completed, with their fields as they were. */
  lemma {:induction false} PendingMembers(s: seq<Task>, t: Task)
    ensures t in Pending(s) <==> t in s && !t.completed
  {
    if s != [] {
      PendingMembers(s[1..], t);
      assert s == [s[0]] + s[1..];
    }
  }

  /** Each task is judged on its own and the kept ones stay in list order. */
  lemma {:induction false} PendingAppend(a: seq<Task>, b: seq<Task>)
    ensures Pending(a + b) == Pending(a) + Pending(b)
  {
    if a == [] {
      assert a + b == b;
    } else {
      assert (a + b)[1..] == a[1..] + b;
      PendingAppend(a[1..], b);
    }
  }

  /** The count comparison of `clearCompleted` detects exactly whether a task was completed. */
  lemma {:induction false} PendingSameLength(s: seq<Task>)
    ensures |Pending(s)| == |s| <==> Pending(s) == s
    ensures Pending(s) == s <==> forall i :: 0 <= i < |s| ==> !s[i].completed
  {
    if s != [] {
      PendingSameLength(s[1..]);
      assert forall i :: 1 <= i < |s| ==> s[i] == s[1..][i - 1];
      if s[0].completed {
        assert |Pending(s)| < |s|;
      } else {
        assert Pending(s) == [s[0]] + Pending(s[1..]);
        assert s == [s[0]] + s[1..];
      }
    }
  }

  /** Clearing twice is clearing once. */
  lemma PendingIdempotent(s: seq<Task>)
    ensures Pending(Pending(s)) == Pending(s)
  {
    PendingSameLength(Pending(s));
  }

  /** The operations other than add keep the list well formed. */
  lemma OperationsKeepWellFormed(s: seq<Task>, id: string, zone: string)
    requires WellFormed(s)
    ensures WellFormed(Toggled(s, id)) && WellFormed(Moved(s, id, zone)) && WellFormed(Pending(s))
  {
    var p := Pending(s);
    forall i | 0 <= i < |p| ensures |p[i].text| <= MaxTextLength {
      PendingMembers(s, p[i]);
    }
  }

  /** The inputs of the walk-through: the text is not blank and is kept as typed, "deep" and "do" are known. */
  lemma WalkThroughInputs()
    ensures !Blank("Write spec") && Trim("Write spec") == "Write spec"
    ensures TagOrLight("deep") == Deep && ParseZone("do") == Some(Do)
  {
    assert TrimStart("Write spec") == "Write spec";
    assert TrimEnd("Write spec") == "Write spec";
  }

  /** The task at `i` is the one and only task with id `id`. */
  predicate OnlyAt(s: seq<Task>, id: string, i: nat) {
    i < |s| && s[i].id == id && forall j :: 0 <= j < |s| && j != i ==> s[j].id != id
  }

  /** The only task with an id is the one `find` returns. */
  lemma OnlyAtIsFirst(s: seq<Task>, id: string, i: nat)
    requires OnlyAt(s, id, i)
    ensures FirstWithId(s, id) == Some(i)
  {
  }

  /** A task added under a fresh id is the only task with that id. */
  lemma AddedFreshId(s: seq<Task>, tag: string, text: string, id: string, now: int)
    requires id !in Ids(s) && !Blank(text)
    ensures OnlyAt(Added(s, tag, text, id, now), id, |s|)
  {
    var r := Added(s, tag, text, id, now);
    forall j | 0 <= j < |s| ensures r[j].id != id {
      assert r[j] == r[..|s|][j];
    }
  }

  /** A new task shows in the unassigned zone. */
  lemma AddedShowsUnassigned(s: seq<Task>, tag: string, text: string, id: string, now: int)
    requires !Blank(text)
    ensures var r := Added(s, tag, text, id, now); r[|s|] in GetTasksInZone(r, Unassigned)
  {
    GetTasksInZoneSpec(Added(s, tag, text, id, now), Unassigned, []);
  }

  /** Toggling the only task with an id flips that task and keeps it the only one. */
  lemma ToggledOnlyAt(s: seq<Task>, id: string, i: nat)
    requires OnlyAt(s, id, i)
    ensures OnlyAt(Toggled(s, id), id, i) && Toggled(s, id)[i].completed == !s[i].completed
  {
    OnlyAtIsFirst(s, id, i);
  }

  /** Moving the only task with an id shows it in the new zone, otherwise unchanged. */
  lemma MovedOnlyAt(s: seq<Task>, id: string, i: nat, z: Zone)
    requires OnlyAt(s, id, i)
    ensures var r := Moved(s, id, ZoneName(z));
      && OnlyAt(r, id, i) && r[i].completed == s[i].completed && r[i] in GetTasksInZone(r, z)
  {
    OnlyAtIsFirst(s, id, i);
    MovedShowsInZone(s, id, z);
  }

  /** Once the only task with an id is completed, clearing removes that id from every zone. */
  lemma ClearRemovesCompletedId(s: seq<Task>, id: string, i: nat)
    requires OnlyAt(s, id, i) && s[i].completed
    ensures forall z: Zone, t :: t in GetTasksInZone(Pending(s), z) ==> t.id != id
  {
    forall z: Zone, t | t in GetTasksInZone(Pending(s), z) ensures t.id != id {
      GetTasksInZoneSpec(Pending(s), z, []);
      PendingMembers(s, t);
    }
  }

  // The walk-through of the board: add "Write spec" tagged deep under a fresh
  // id, toggle it, move it to "do", clear completed tasks. One lemma per step.

  /** After adding, the task sits unassigned and open, tagged deep, with its text as typed. */
  lemma WalkThroughAdd(s: seq<Task>, id: string, now: int)
    requires id !in Ids(s)
    ensures var s1 := Added(s, "deep", "Write spec", id, now);
      && OnlyAt(s1, id, |s|) && s1[|s|] in GetTasksInZone(s1, Unassigned)
      && s1[|s|].tag == Deep && !s1[|s|].completed && s1[|s|].text == "Write spec"
  {
    WalkThroughInputs();
    AddedFreshId(s, "deep", "Write spec", id, now);
    AddedShowsUnassigned(s, "deep", "Write spec", id, now);
  }

  /** Toggling it then marks it completed. */
  lemma WalkThroughToggle(s: seq<Task>, id: string, now: int)
    requires id !in Ids(s)
    ensures var s2 := Toggled(Added(s, "deep", "Write spec", id, now), id);
      OnlyAt(s2, id, |s|) && s2[|s|].completed
  {
    WalkThroughAdd(s, id, now);
    ToggledOnlyAt(Added(s, "deep", "Write spec", id, now), id, |s|);
  }

  /** Dropping it on "do" shows it in the do zone, still completed. */
  lemma WalkThroughMove(s: seq<Task>, id: string, now: int)
    requires id !in Ids(s)
    ensures var s3 := Moved(Toggled(Added(s, "deep", "Write spec", id, now), id), id, "do");
      && OnlyAt(s3, id, |s|) && s3[|s|] in GetTasksInZone(s3, Do) && s3[|s|].completed
  {
    WalkThroughToggle(s, id, now);
    MovedOnlyAt(Toggled(Added(s, "deep", "Write spec", id, now), id), id, |s|, Do);
  }

  /** Clearing completed tasks then removes it from every zone. */
  lemma WalkThroughClear(s: seq<Task>, id: string, now: int)
    requires id !in Ids(s)
    ensures var s4 := Pending(Moved(Toggled(Added(s, "deep", "Write spec", id, now), id), id, "do"));
      forall z: Zone, t :: t in GetTasksInZone(s4, z) ==> t.id != id
  {
    WalkThroughMove(s, id, now);
    ClearRemovesCompletedId(Moved(Toggled(Added(s, "deep", "Write spec", id, now), id), id, "do"), id, |s|);
  }
}
