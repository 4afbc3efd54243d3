/**
 * Persistence of the task list: the hygiene `loadState` applies to whatever
 * record it finds in local storage, and the record `saveState` writes.
 */
module Storage {
  import opened Wrappers
  import opened Vocab
  import opened Text
  import opened JsonValue
  import opened Tasks

  /**
   * What reading the storage key yields: nothing (a missing or empty item),
   * a failure of `localStorage.getItem` or of `JSON.parse` (both end in the
   * `catch`), or a parsed JSON value.
   */
  datatype Stored = NoRecord | Unreadable | Record(parsed: Json)

  /** `t && typeof t.id === "string"`: the entries loading keeps. */
  predicate HasStringId(t: Json)
    ensures HasStringId(t) ==> t.JObject? && Truthy(Some(t))
  {
    var id := Field(t, "id");
    id.Some? && id.value.JString?
  }

  /** The stored tag if it names a tag, otherwise light. */
  function NormalizeTag(f: Option<Json>): (r: Tag)
    ensures f == Some(JString(TagName(r)))
         || (r == Light && forall t: Tag :: f != Some(JString(TagName(t))))
  {
    if f.Some? && f.value.JString? then TagOrLight(f.value.s) else Light
  }

  /** `ZONES.includes(t.zone) ? t.zone : "unassigned"`. */
  function NormalizeZone(f: Option<Json>): (r: Zone)
    ensures f == Some(JString(ZoneName(r)))
         || (r == Unassigned && forall z: Zone :: f != Some(JString(ZoneName(z))))
  {
    if f.Some? && f.value.JString? && ParseZone(f.value.s).Some? then ParseZone(f.value.s).value
    else Unassigned
  }

  /** `typeof t.createdAt === "number" ? t.createdAt : Date.now()`, the clock reading passed as `now`. */
  function CreatedAtOf(f: Option<Json>, now: int): (r: int)
    ensures f.Some? && f.value.JNumber? ==> r == f.value.n
    ensures !(f.Some? && f.value.JNumber?) ==> r == now
  {
    if f.Some? && f.value.JNumber? then f.value.n else now
  }

  /** The well-formed task that loading makes of a kept entry. */
  function Normalize(t: Json, now: int): (r: Task)
    requires HasStringId(t)
    ensures Some(JString(r.id)) == Field(t, "id")
    ensures var full := TextOf(Field(t, "text"));
      |r.text| == (if |full| < MaxTextLength then |full| else MaxTextLength) && r.text == full[..|r.text|]
    ensures r.completed == Truthy(Field(t, "completed"))
  {
    Task(
      Field(t, "id").value.s,
      Clamp(TextOf(Field(t, "text"))),
      NormalizeTag(Field(t, "tag")),
      NormalizeZone(Field(t, "zone")),
      Truthy(Field(t, "completed")),
      CreatedAtOf(Field(t, "createdAt"), now))
  }

  /** The `filter` and `map` of the "basic hygiene" step. */
  function Hygiene(items: seq<Json>, now: int): (r: seq<Task>)
    ensures |r| <= |items|
    ensures WellFormed(r)
    ensures |r| == |items| <==> forall i :: 0 <= i < |items| ==> HasStringId(items[i])
  {
    if items == [] then []
    else
      var rest := Hygiene(items[1..], now);
      assert forall i :: 1 <= i < |items| ==> items[i] == items[1..][i - 1];
      if HasStringId(items[0]) then [Normalize(items[0], now)] + rest else rest
  }

  /** Each entry is judged on its own and the kept ones stay in their order. */
  lemma {:induction false} HygieneAppend(a: seq<Json>, b: seq<Json>, now: int)
    ensures Hygiene(a + b, now) == Hygiene(a, now) + Hygiene(b, now)
  {
    if a == [] {
      assert a + b == b;
    } else {
      assert (a + b)[1..] == a[1..] + b;
      HygieneAppend(a[1..], b, now);
    }
  }

  /** A single entry is kept, normalised, exactly when it has a string id. */
  lemma HygieneSingle(t: Json, now: int)
    ensures Hygiene([t], now) == if HasStringId(t) then [Normalize(t, now)] else []
  {
    assert [t][1..] == [];
  }

  /**
   * Whether normalising a kept entry throws, in `String(t.text || "")` or in
   * the property key of `TAGS[t.tag]`.
   */
  predicate NormalizeThrows(t: Json) {
    var tag := Field(t, "tag");
    TextThrows(Field(t, "text")) || (tag.Some? && StringThrows(tag.value))
  }

  /** Whether the `map` throws on some entry the `filter` keeps; the `catch` then gives an empty list. */
  predicate HygieneThrows(items: seq<Json>) {
    exists i :: 0 <= i < |items| && HasStringId(items[i]) && NormalizeThrows(items[i])
  }

  /** `Array.isArray(parsed.tasks)`: the entries of the `tasks` array, if there is one. */
  function TasksArray(v: Json): (r: Option<seq<Json>>)
    ensures r.Some? <==> Field(v, "tasks").Some? && Field(v, "tasks").value.JArray?
  {
    var f := Field(v, "tasks");
    if f.Some? && f.value.JArray? then Some(f.value.items) else None
  }

  /** `loadState()`: the task list the page starts from. */
  function LoadState(stored: Stored, now: int): (r: seq<Task>)
    ensures WellFormed(r)
    ensures stored.NoRecord? || stored.Unreadable? ==> r == []
    ensures stored.Record? && TasksArray(stored.parsed).None? ==> r == []
    ensures stored.Record? && TasksArray(stored.parsed).Some? ==>
      |r| <= |TasksArray(stored.parsed).value|
    ensures stored.Record? && TasksArray(stored.parsed).Some? && HygieneThrows(TasksArray(stored.parsed).value) ==>
      r == []
  {
    match stored
    case NoRecord => []
    case Unreadable => []
    case Record(v) =>
      match TasksArray(v)
      case None => []
      case Some(items) => if HygieneThrows(items) then [] else Hygiene(items, now)
  }

  /** The JSON object `JSON.stringify` writes for one task. */
  function TaskToJson(t: Task): (j: Json)
    ensures HasStringId(j) && !NormalizeThrows(j)
  {
    JObject(map[
      "id" := JString(t.id),
      "text" := JString(t.text),
      "tag" := JString(TagName(t.tag)),
      "zone" := JString(ZoneName(t.zone)),
      "completed" := JBool(t.completed),
      "createdAt" := JNumber(t.createdAt)])
  }

  function TasksToJson(tasks: seq<Task>): (r: seq<Json>)
    ensures |r| == |tasks|
    ensures forall i :: 0 <= i < |tasks| ==> r[i] == TaskToJson(tasks[i])
  {
    if tasks == [] then [] else [TaskToJson(tasks[0])] + TasksToJson(tasks[1..])
  }

  /** `saveState()`: the record `{ tasks: [...] }` written to storage. */
  function Encode(tasks: seq<Task>): (j: Json)
    ensures TasksArray(j) == Some(TasksToJson(tasks))
    ensures !HygieneThrows(TasksToJson(tasks))
  {
    JObject(map["tasks" := JArray(TasksToJson(tasks))])
  }

  /**
   * A stored task whose text is an object with an own "toString" key makes
   * `String` throw, and the whole load falls back to an empty list.
   */
  lemma LoadThrowingTextLoadsNothing(now: int)
    ensures var entry := JObject(map["id" := JString("a"), "text" := JObject(map["toString" := JNumber(0)])]);
      LoadState(Record(JObject(map["tasks" := JArray([entry])])), now) == []
  {
    var entry := JObject(map["id" := JString("a"), "text" := JObject(map["toString" := JNumber(0)])]);
    assert HasStringId([entry][0]) && NormalizeThrows([entry][0]);
  }

  /** Loading gives back exactly what was saved, provided the texts fit the limit. */
  lemma {:induction false} NormalizeTaskToJson(t: Task, now: int)
    requires |t.text| <= MaxTextLength
    ensures HasStringId(TaskToJson(t)) && Normalize(TaskToJson(t), now) == t
  {
    var j := TaskToJson(t);
    assert Field(j, "text") == Some(JString(t.text));
    assert Field(j, "tag") == Some(JString(TagName(t.tag)));
    assert Field(j, "zone") == Some(JString(ZoneName(t.zone)));
    assert Field(j, "completed") == Some(JBool(t.completed));
    assert Field(j, "createdAt") == Some(JNumber(t.createdAt));
  }

  lemma {:induction false} HygieneTasksToJson(tasks: seq<Task>, now: int)
    requires WellFormed(tasks)
    ensures Hygiene(TasksToJson(tasks), now) == tasks
  {
    if tasks != [] {
      NormalizeTaskToJson(tasks[0], now);
      HygieneTasksToJson(tasks[1..], now);
    }
  }

  /** A saved list loads back unchanged, whatever the clock reads at load time. */
  lemma LoadEncodeRoundTrip(tasks: seq<Task>, now: int)
    requires WellFormed(tasks)
    ensures LoadState(Record(Encode(tasks)), now) == tasks
  {
    HygieneTasksToJson(tasks, now);
  }

  /** Loading, saving and loading again gives the list of the first load. */
  lemma LoadIdempotent(stored: Stored, now: int, later: int)
    ensures LoadState(Record(Encode(LoadState(stored, now))), later) == LoadState(stored, now)
  {
    LoadEncodeRoundTrip(LoadState(stored, now), later);
  }

  // The tag hygiene as written: `TAGS[t.tag] ? t.tag : "light"` keeps the raw
  // value whenever the object lookup is truthy.

  /** The property key JavaScript looks up for `TAGS[v]`. */
  function PropertyKey(f: Option<Json>): (k: string)
    ensures f.None? ==> k == "undefined"
    ensures f.Some? && f.value.JString? ==> k == f.value.s
  {
    match f
    case None => "undefined"
    case Some(v) => ToJsString(v)
  }

  /** The raw value loading stores as the tag, as written. */
  function LoadTagAsWritten(f: Option<Json>): (r: Json)
    ensures r == JString("light") || Some(r) == f
  {
    if f.Some? && TagsLookupTruthy(PropertyKey(f)) then f.value else JString("light")
  }

  /**
   * As written, a stored tag "toString" survives loading, and so does the
   * array ["deep"], whose property key is "deep": neither is a tag name.
   */
  lemma LoadTagAsWrittenKeepsNonTags()
    ensures LoadTagAsWritten(Some(JString("toString"))) == JString("toString")
    ensures forall t: Tag :: JString(TagName(t)) != LoadTagAsWritten(Some(JString("toString")))
    ensures LoadTagAsWritten(Some(JArray([JString("deep")]))) == JArray([JString("deep")])
  {
    assert "toString" in InheritedKeys;
    var a := JArray([JString("deep")]);
    assert ToJsString(a) == "deep" by {
      assert seq(1, i requires 0 <= i < 1 => if [JString("deep")][i].JNull? then "" else ToJsString([JString("deep")][i])) == ["deep"];
    }
  }

  /** The corrected hygiene stores the tag the raw value names, and agrees with the written one on tag names. */
  lemma NormalizeTagAgreesOnTagNames(t: Tag)
    ensures LoadTagAsWritten(Some(JString(TagName(t)))) == JString(TagName(NormalizeTag(Some(JString(TagName(t))))))
  {
  }
}
