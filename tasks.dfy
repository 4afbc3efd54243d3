/** The task record, the one entity of the board. */
module Tasks {
  import opened Vocab
  import opened Text

  /** `createdAt` is a millisecond timestamp; it only orders tasks within a zone. */
  datatype Task = Task(id: string, text: string, tag: Tag, zone: Zone, completed: bool, createdAt: int)

  /** What every stored task satisfies beyond its types: its text fits the limit. */
  predicate WellFormed(tasks: seq<Task>) {
    forall i :: 0 <= i < |tasks| ==> |tasks[i].text| <= MaxTextLength
  }

  /** The ids of the tasks, in list order. */
  function Ids(tasks: seq<Task>): (r: seq<string>)
    ensures |r| == |tasks|
    ensures forall i :: 0 <= i < |tasks| ==> r[i] == tasks[i].id
  {
    if tasks == [] then [] else [tasks[0].id] + Ids(tasks[1..])
  }
}
