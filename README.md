# Eisenhower scratchpad: a verified model of the task board

The Eisenhower scratchpad is one page, `docs/app/app.js`, that keeps a list
of tasks. Each task has an id, a text, a tag (light, deep, open, learning,
planning) and a zone (unassigned, do, schedule, delegate, eliminate); it is
also open or completed and carries a creation time. The user adds a task,
clicks it to toggle completion, drags it to another zone and clears the
completed tasks. The list is written to the browser's storage after every
change and read back, cleaned up, when the page loads. Every zone shows its
tasks oldest first.

This project models that core in Dafny and proves what it does:

- `vocab.dfy` (module `Vocab`): the zone and tag vocabularies, the tag
  labels, the "known tag or light" fallback, and the JavaScript object
  lookup `TAGS[key]` as the page evaluates it.
- `text.dfy` (module `Text`): `String.prototype.trim` over the ECMAScript
  white-space and line-terminator characters, and `slice(0, 120)`.
- `json.dfy` (module `JsonValue`): an already parsed JSON value, JavaScript
  truthiness, and `String(v)`, including the parsed values on which it
  throws.
- `tasks.dfy` (module `Tasks`): the task record and the well-formedness
  invariant, which says every text is at most 120 characters long.
- `storage.dfy` (module `Storage`): `loadState`'s clean-up of a stored
  record, the record `saveState` writes, and the round trip between them.
- `zoneview.dfy` (module `ZoneView`): `getTasksInZone`, a filter followed
  by a stable sort on the creation time, and `render`'s fixed zone order.
- `controller.dfy` (module `Controller`): the four user operations as
  functions from the list before to the list after, with their properties.
- `board.dfy` (module `Board`): the page's `state` as a class,
  `TaskBoard`. Its methods update the task list in place, record what was
  saved and what is shown, and are proved equal to the functions in
  `Controller`.

Requirements the model makes explicit:

- `uid()` and `Date.now()` are parameters of the operations that use them.
- Storage is an input: no record, an unreadable record, or a parsed JSON
  value.
- The snapshot last saved and the zones on screen are ghost fields of the
  board. They are kept equal to `Encode(tasks)` and to `Render(tasks, …)`.

## Model

| member | source | states |
|---|---|---|
| Vocab.ParseZone | docs/app/app.js:173 | `ZONES.includes(zone)`: a zone is found exactly when the string is that zone's name |
| Vocab.ParseTag | docs/app/app.js:12-18 | a tag is found exactly when the string is one of the five own keys of `TAGS` |
| Vocab.TagOrLight | docs/app/app.js:152 | the result is the tag the string names, or light when it names no tag |
| Vocab.BadgeFor | docs/app/app.js:97 | `TAGS[task.tag] \|\| TAGS.light` as written: a tag name's label and class, light's for a key the object lacks, and no badge for a key inherited from Object.prototype |
| Vocab.BadgeOrLight | docs/app/app.js:97 | the lookup as intended: a tag name's label and class, light's for every other key |
| Vocab.BadgeForInheritedKey | docs/app/app.js:97 | as written, the key "toString" gives no badge, where the intended lookup gives light's |
| Vocab.BadgeOrLightAgrees | docs/app/app.js:97 | the written and intended badge lookups agree exactly on the keys the TAGS object does not inherit |
| Vocab.TagsLookupTruthy | docs/app/app.js:47 | `TAGS[key]` is truthy for every tag name, and on keys not inherited from Object.prototype exactly for the tag names |
| Vocab.AddTagAsWritten | docs/app/app.js:152 | the lookup as written stores either the given string or "light" |
| Vocab.AddTagAsWrittenKeepsInheritedKey | docs/app/app.js:152 | as written, the inherited key "toString" is stored as the tag, and it names no tag |
| Vocab.TagOrLightIsAddTagOnOwnKeys | docs/app/app.js:152 | the corrected lookup agrees with the written one exactly on the keys not inherited from Object.prototype |
| Text.TrimStart | docs/app/app.js:146 | the result is a suffix of the input, starts with no white space, and only white space was dropped |
| Text.TrimEnd | docs/app/app.js:146 | the result is a prefix of the input, ends with no white space, and only white space was dropped |
| Text.Trim | docs/app/app.js:146 | `trim()` is no longer than its input and neither starts nor ends with white space |
| Text.TrimSpec | docs/app/app.js:146 | `trim()` returns a contiguous slice of the input, with only white space around it and none at its two ends |
| Text.BlankIffAllSpace | docs/app/app.js:146-147 | the trimmed text is empty exactly when the input is all white space |
| Text.Clamp | docs/app/app.js:151 | `slice(0, 120)` returns the prefix of length min(length, 120) |
| Text.ClampIdempotent | docs/app/app.js:46 | clamping twice is clamping once, and a text of at most 120 characters is kept whole |
| JsonValue.Field | docs/app/app.js:43 | a property is found exactly when the value is an object that has that key |
| JsonValue.Truthy | docs/app/app.js:49 | `Boolean(v)` is false exactly for `undefined`, null, false, 0 and the empty string |
| JsonValue.NatToDecimal | docs/app/app.js:46 | `String(n)` of a whole number is a non-empty string of digits that spells n, with a leading zero only for zero |
| JsonValue.ToJsString | docs/app/app.js:46 | `String(v)` keeps a string, spells a number in decimal with a minus sign when negative, and writes an object as "[object Object]" |
| JsonValue.TextOf | docs/app/app.js:46 | `String(t.text \|\| "")` is the stored string itself, and the empty string for a falsy or missing text |
| Storage.HasStringId | docs/app/app.js:43 | an entry the filter keeps is an object, and so truthy |
| Storage.NormalizeTag | docs/app/app.js:47 | the loaded tag is the stored one when the stored value is a tag name, light otherwise |
| Storage.NormalizeZone | docs/app/app.js:48 | the loaded zone is the stored one when the stored value is a zone name, unassigned otherwise |
| Storage.CreatedAtOf | docs/app/app.js:50 | the creation time is the stored number, or the current time when it is missing or not a number |
| Storage.Normalize | docs/app/app.js:44-51 | a loaded task keeps its string id, has the first min(length, 120) characters of its text, and is completed exactly when the stored flag is truthy |
| Storage.Hygiene | docs/app/app.js:42-51 | the result is well formed, no longer than the input, and as long as it exactly when every entry has a string id |
| Storage.HygieneAppend | docs/app/app.js:42-43 | each entry is kept or dropped on its own, and the kept ones stay in order |
| Storage.HygieneSingle | docs/app/app.js:43-51 | one entry is kept, as its normalised task, exactly when it is an object with a string id |
| Storage.TasksArray | docs/app/app.js:39 | a task array is found exactly when the record is an object whose `tasks` property is an array |
| Storage.LoadState | docs/app/app.js:34-57 | the loaded list is well formed; it is empty when there is no record, the record does not parse, it has no task array, or converting a kept entry's text or tag throws; otherwise it is no longer than that array |
| Storage.LoadThrowingTextLoadsNothing | docs/app/app.js:46 | a stored text `{"toString": 0}` makes `String` throw, and the whole load yields an empty list |
| Storage.TaskToJson | docs/app/app.js:60 | the entry saved for a task has a string id and loads without throwing |
| Storage.TasksToJson | docs/app/app.js:60 | one stored entry per task, in list order |
| Storage.Encode | docs/app/app.js:59-61 | the saved record's `tasks` property is the array of the tasks' entries, and none of them throws on loading |
| Storage.NormalizeTaskToJson | docs/app/app.js:44-51 | loading the entry saved for a well-formed task gives back that task |
| Storage.HygieneTasksToJson | docs/app/app.js:42-51 | cleaning up a saved well-formed list gives back the list |
| Storage.LoadEncodeRoundTrip | docs/app/app.js:34-61 | loading what `saveState` wrote gives back the saved list, at any clock reading |
| Storage.LoadIdempotent | docs/app/app.js:34-61 | saving a loaded list and loading it again changes nothing |
| Storage.PropertyKey | docs/app/app.js:47 | the key of `TAGS[v]` is "undefined" for a missing tag and the string itself for a string |
| Storage.LoadTagAsWritten | docs/app/app.js:47 | the tag loading stores as written is either the stored value or "light" |
| Storage.LoadTagAsWrittenKeepsNonTags | docs/app/app.js:47 | as written, a stored "toString" and a stored array `["deep"]` both survive loading, and neither is a tag name |
| Storage.NormalizeTagAgreesOnTagNames | docs/app/app.js:47 | on every tag name the corrected load agrees with the written one |
| ZoneView.InZone | docs/app/app.js:68 | `filter(t => t.zone === zone)` keeps only tasks of that zone and is no longer than the list |
| ZoneView.InZoneMembers | docs/app/app.js:68 | a task is in the filtered list exactly when it is in the list with that zone |
| ZoneView.InZoneCount | docs/app/app.js:68 | the filter keeps every copy of a task of the zone and no copy of any other task |
| ZoneView.CompareByCreatedAtSign | docs/app/app.js:63-65 | `sortByCreatedAt` is negative, zero or positive as the first task is earlier, as early or later, and is antisymmetric |
| ZoneView.CreatedAtMembers | docs/app/app.js:63-68 | the tasks tied at a creation time are exactly those with that time |
| ZoneView.Insert | docs/app/app.js:68 | inserting adds exactly that task |
| ZoneView.InsertBound | docs/app/app.js:63-68 | a lower bound on the creation times survives insertion |
| ZoneView.InsertSorted | docs/app/app.js:63-68 | insertion keeps a list sorted by `sortByCreatedAt` |
| ZoneView.InsertTies | docs/app/app.js:63-68 | an inserted task goes in front of the tasks it ties with, and all other ties keep their order |
| ZoneView.SortByCreatedAt | docs/app/app.js:63-68 | the sort's result is ascending by creation time and a permutation of its input |
| ZoneView.SortKeepsTies | docs/app/app.js:68 | the sort is stable: tasks with equal creation times keep their relative order |
| ZoneView.SortedHeadIsEarliest | docs/app/app.js:63-68 | the first task of a sorted list is the earliest |
| ZoneView.StableSortUnique | docs/app/app.js:68 | two sorted lists with the same ties are equal, so a stable sort has only one possible result |
| ZoneView.GetTasksInZone | docs/app/app.js:67-69 | the zone's list is sorted by creation time and a permutation of the zone's filter |
| ZoneView.GetTasksInZoneSpec | docs/app/app.js:67-69 | `getTasksInZone` returns a permutation of the zone's filter, holds exactly the zone's tasks, is sorted and stable, and is the only list with these properties |
| ZoneView.ZonesPartition | docs/app/app.js:10 | the five zone filters split the task list: every task is in exactly one of them |
| ZoneView.EveryTaskShownOnce | docs/app/app.js:76-83 | over the five zones, the zone views hold every task exactly once |
| ZoneView.CardOf | docs/app/app.js:87-103 | a card shows the task's id, text and completion, with the badge of its tag |
| ZoneView.CardsOf | docs/app/app.js:83 | one card per task, in the view's order |
| ZoneView.ZonesInOrder | docs/app/app.js:10 | ZONES lists each zone once, in the order unassigned, do, schedule, delegate, eliminate |
| ZoneView.Present | docs/app/app.js:76-78 | the zones drawn are exactly the zones of the list that have an element in the page; from a list in ZONES order they come in that order, each once |
| ZoneView.Render | docs/app/app.js:71-85 | `render()` draws only zones whose element is in the page, in ZONES order, each once |
| ZoneView.RenderZones | docs/app/app.js:76-84 | each drawn zone holds the cards of that zone's view |
| ZoneView.RenderFillsPresentZones | docs/app/app.js:76-78 | a zone is drawn exactly when its element is in the page |
| ZoneView.PresentKeepsAll | docs/app/app.js:76-78 | when every zone has an element, none is skipped |
| ZoneView.RenderAllZones | docs/app/app.js:76-84 | with every zone in the page, the zones are drawn in the order unassigned, do, schedule, delegate, eliminate |
| Controller.FirstWithId | docs/app/app.js:163 | `find` returns the first task with the id, or nothing exactly when no task has it |
| Controller.FirstWithIdOnIds | docs/app/app.js:163 | `find` depends only on the ids of the tasks |
| Controller.Blank | docs/app/app.js:146-147 | the add handler ignores the text exactly when it is all white space |
| Controller.NewTask | docs/app/app.js:149-156 | the new task is unassigned, open, has the given id and time, the selected tag or light, and exactly the first min(length, 120) characters of the trimmed text, which are never empty |
| Controller.Added | docs/app/app.js:145-160 | blank text changes nothing; otherwise exactly one new task is appended and the existing tasks are kept as they were |
| Controller.AddedKeepsInvariants | docs/app/app.js:149-156 | adding keeps the list well formed, and a fresh id keeps the ids distinct |
| Controller.Toggled | docs/app/app.js:162-165 | an unknown id changes nothing; otherwise only the first task with the id flips its completion, and ids and texts are kept |
| Controller.ToggleTwice | docs/app/app.js:165 | toggling twice restores the list |
| Controller.Moved | docs/app/app.js:170-174 | an unknown id or zone changes nothing; otherwise only the zone of the first task with the id changes, to the named zone |
| Controller.MoveIdempotent | docs/app/app.js:174 | moving to the same zone twice is moving once |
| Controller.MovedShowsInZone | docs/app/app.js:174 | after a move the task is in the view of the zone it was dropped on |
| Controller.Pending | docs/app/app.js:181 | the result has no completed task and is no longer than the list |
| Controller.PendingMembers | docs/app/app.js:181 | a task is kept exactly when it is in the list and not completed |
| Controller.PendingAppend | docs/app/app.js:181 | clearing judges each task on its own and keeps the order |
| Controller.PendingSameLength | docs/app/app.js:180-184 | the count stays the same exactly when nothing is removed, which is exactly when no task is completed |
| Controller.PendingIdempotent | docs/app/app.js:181 | clearing twice is clearing once |
| Controller.OperationsKeepWellFormed | docs/app/app.js:162-181 | toggle, move and clear keep the list well formed |
| Controller.AddedFreshId | docs/app/app.js:149-150 | a task added under a fresh id is the only task with that id |
| Controller.AddedShowsUnassigned | docs/app/app.js:153 | a new task shows in the unassigned zone |
| Controller.ToggledOnlyAt | docs/app/app.js:162-165 | toggling the only task with an id flips it and keeps it the only one |
| Controller.MovedOnlyAt | docs/app/app.js:170-174 | moving the only task with an id keeps its completion, keeps it the only one, and shows it in the new zone |
| Controller.ClearRemovesCompletedId | docs/app/app.js:179-181 | once the only task with an id is completed, clearing removes that id from every zone view |
| Controller.WalkThroughAdd | docs/app/app.js:145-160 | adding "Write spec" as deep under a fresh id gives the only task with that id, unassigned, open, tagged deep, with its text as typed |
| Controller.WalkThroughToggle | docs/app/app.js:162-168 | toggling it then marks it completed |
| Controller.WalkThroughMove | docs/app/app.js:170-177 | dropping it on "do" then shows it in the do view, still completed |
| Controller.WalkThroughClear | docs/app/app.js:179-188 | clearing completed tasks then removes it from every zone view |
| Board.TaskBoard.constructor | docs/app/app.js:20 | the board starts with the loaded list, nothing saved yet and every zone drawn |
| Board.TaskBoard.Save | docs/app/app.js:59-61 | the stored record becomes the encoding of the current list |
| Board.TaskBoard.Redraw | docs/app/app.js:71-85 | the zones show the current list |
| Board.TaskBoard.AddTask | docs/app/app.js:145-160 | the list becomes `Added` of the old list; blank text leaves the board untouched; in every other case the new list is saved and drawn |
| Board.TaskBoard.ToggleCompleted | docs/app/app.js:162-168 | the list becomes `Toggled` of the old list; an unknown id leaves the board untouched; in every other case the new list is saved and drawn |
| Board.TaskBoard.MoveTask | docs/app/app.js:170-177 | the list becomes `Moved` of the old list; an unknown id or zone leaves the board untouched; in every other case the new list is saved and drawn |
| Board.TaskBoard.ClearCompleted | docs/app/app.js:179-188 | the list becomes `Pending` of the old list; with no completed task the board is untouched; in every other case the new list is saved and drawn |
| Board.WalkThroughOnBoard | docs/app/app.js:145-188 | the walk-through on a live board leaves it valid, with the task gone from every zone and the remaining list saved |

## Left out

- DOM construction, event listeners, the drag-in-progress flag that
  suppresses clicks, and the `setTimeout` in `renderTask`
  (docs/app/app.js:22-28, 87-143, 191-227). The page is modelled only
  through the cards each zone shows.
- The drop handler's guard `if (taskId && zone)` (docs/app/app.js:208).
  It belongs to the event wiring, and `MoveTask` is modelled for every id
  and zone string.
- `localStorage` and the JSON text. Storage is an already parsed value, or
  one of two failures: no record, or a record that does not parse. Saving
  records the JSON value that `JSON.stringify` would write.
- `saveState` writes the whole `state` object. When the stored record had
  top-level properties besides `tasks`, the page keeps them and writes them
  back. The model keeps and writes the task list only.
- `uid()` and `Date.now()` are parameters. `Storage.LoadState` uses a single
  clock reading for every entry whose creation time it fills in, while the
  page reads the clock once per entry.
- Numbers are whole numbers. `Storage.CreatedAtOf` does not model NaN,
  infinities or fractional times. `JsonValue.NatToDecimal` does not model
  the exponent notation `String` uses for very large numbers.
- `Text.Clamp` and `Text.TrimStart`/`Text.TrimEnd` count Unicode scalar
  values, not UTF-16 code units. The two counts differ for characters
  outside the Basic Multilingual Plane.
- Ids are not required to be distinct, because the page does not enforce
  it. Only `Controller.AddedKeepsInvariants` states that a fresh id keeps
  distinct ids distinct.
- The model's tasks carry a tag and a zone from the fixed sets. A loaded
  task therefore cannot hold the inherited-key tags described under
  Findings. Cards use the intended badge lookup `Vocab.BadgeOrLight`. The
  written lookup `Vocab.BadgeFor` is modelled on keys.
- `String(v)` is modelled on parsed JSON values only. It throws exactly when
  the value is an object with an own "toString" property, or an array with
  such an element. `JsonValue.ToJsString` spells out the result only where
  the conversion does not throw. Loading treats a throw in the text or tag
  conversion of a kept entry as the `catch` does, by yielding an empty list.

## Findings

| source | as written | input that shows it | evidently intended | confidence | as-written member | corrected member |
|---|---|---|---|---|---|---|
| docs/app/app.js:47 | `TAGS[t.tag] ? t.tag : "light"` looks the stored value up on a plain object, so any key inherited from Object.prototype is truthy, and a value is first turned into its property key | a stored task with tag `"toString"`, or with tag `["deep"]` (the key is "deep"), keeps that value as its tag | a stored tag that is not one of the five tag names becomes "light" | medium, not executed | Storage.LoadTagAsWritten, Storage.LoadTagAsWrittenKeepsNonTags | Storage.NormalizeTag |
| docs/app/app.js:152 | the same truthiness lookup on the selected tag when a task is added | `addTask("toString", "x")` stores the tag "toString"; the page's own select element only offers the five tag names | a tag that is not one of the five tag names becomes "light" | low, not executed | Vocab.AddTagAsWritten, Vocab.AddTagAsWrittenKeepsInheritedKey | Vocab.TagOrLight |
| docs/app/app.js:97 | `TAGS[task.tag] \|\| TAGS.light` takes any truthy lookup, and an inherited key finds an Object.prototype member | a task whose tag is "toString", which loading as written lets through, gets a badge whose class name and label are `undefined` | a tag that is not one of the five tag names shows light's badge | medium, not executed | Vocab.BadgeFor, Vocab.BadgeForInheritedKey | Vocab.BadgeOrLight |
