# Roadmap board — a Dafny model

This project models the state core of a single-page kanban-style product roadmap.
The board is an ordered list of lanes. Each lane has an id, a title and an ordered list of tasks, and each task has an id and a text.
The page changes the board in four ways:

- **Drop**: a dragged task moves to the end of the lane it is dropped on. Any failed lookup leaves the board as it was.
- **Add task**: the task lands at the end of the lane chosen for the add-task dialog.
- **Suggestion**: the board's titles and task texts go to a suggestion service. Its answer (a task text and a lane title) is appended to the first lane with that exact title. A busy flag is raised for the request and always lowered afterwards.
- **Add-task dialog**: input that is blank after `trim()` is refused. Otherwise the trimmed text is forwarded, the field is cleared and the dialog closes.

Modules, following the source files:

- `Types` (`types.dfy`): `Task`, `Lane` and `Board`, from `src/types/index.ts`.
- `JsArray` (`js_array.dfy`): the semantics of `findIndex`/`find` and `splice(k, 1)` that the page relies on.
- `JsString` (`js_string.dfy`): `String.prototype.trim`, with the whitespace and line-terminator classes of ECMAScript.
- `BoardState` (`board_state.dfy`): whole-board views (`AllTasks`, `TaskIds`) and the board invariant `WellFormed`, meaning unique lane ids and unique task ids.
- `Roadmap` (`roadmap.dfy`): the pure board operations of `src/app/page.tsx`, which are `Move`, `AddTo`, `Snapshot` and `ApplySuggestion`, with their lemmas.
- `TaskDialog` (`add_task_dialog.dfy`): the class `AddTaskDialog`, after `src/components/AddTaskDialog.tsx`.
- `Page` (`page.dfy`): the class `Roadmapper`. It holds the page state (`lanes`, `currentLaneIdForAddingTask`, `isSuggestingTask`, the dialog) and the event handlers.

The drop handler is written imperatively, as in the source: copy, find, splice, push.
It is proved equal to the declarative `Roadmap.Move`. The properties of a drop are lemmas about `Move`.

The following are parameters:

- **New ids**: `crypto.randomUUID()` becomes a caller-supplied `uuid`. The id is `"task-" + uuid`, and the handlers require it to be absent from the board.
- **Suggestion service**: modelled as an arbitrary function from the request to a response, where the response is an answer or a thrown error.
- **Drag payload**: the two `dataTransfer` strings are plain string arguments. A missing datum is `""`.

Four points about the code's behaviour:

- **Suggestion text**: the suggested text is stored verbatim, with no trimming and no emptiness check, so a suggestion can create an empty task (`Roadmap.EmptySuggestionIsStored`). Only the dialog path guarantees non-empty trimmed text.
- **Where trimming happens**: `handleAddTask` stores its argument as given and returns nothing. The trimming happens in the dialog.
- **Duplicate lane ids**: adding maps over every lane whose id matches. If lane ids were duplicated, each such lane would get the task. The lemmas assume unique lane ids, which is part of the board invariant and kept by every operation.
- **Falsy strings**: in JavaScript `""` is falsy. So `handleDrop` ignores an empty task or source id, and `handleAddTask` treats a selected lane id of `""` like no selection.

## Model

| member | source | states |
|---|---|---|
| `JsArray.FindIndex` | src/app/page.tsx:121 | the result is -1 exactly when no element satisfies the predicate, otherwise the first index that does |
| `JsArray.RemoveAt` | src/app/page.tsx:124 | `splice(k, 1)` drops exactly element k: one shorter, elements before k unchanged, elements after shifted by one, same multiset minus that element |
| `Roadmap.LaneIndex` | src/app/page.tsx:116-117 | `find` by lane id: -1 when no lane has the id, else the first lane with it |
| `Roadmap.TaskIndex` | src/app/page.tsx:121 | `findIndex` by task id within a lane: -1 when absent, else the first position with that id |
| `Roadmap.TitleIndex` | src/app/page.tsx:168 | lane resolution of an answer: -1 when no title matches exactly, else the first lane whose title equals it |
| `Roadmap.Move` | src/app/page.tsx:114-129 | a drop keeps the number of lanes, their order, ids and titles |
| `Roadmap.MoveIsSpliceThenPush` | src/app/page.tsx:124-126 | when all lookups succeed, the declarative drop equals splicing the task out of the source lane and then pushing it onto the target lane |
| `Roadmap.MoveFailsClosed` | src/app/page.tsx:116-122 | unknown source lane, unknown target lane, or a task id absent from the source lane: the board is returned unchanged |
| `Roadmap.LocateOnWellFormed` | src/app/page.tsx:116-121 | on a well-formed board the lookups find the lane and the task exactly where they are |
| `Roadmap.MoveBetweenLanes` | src/app/page.tsx:121-126 | between two lanes: the source lane loses only the task, with the others in order; the target lane gains it as its last element; the task id is gone from the source; every other lane is untouched |
| `Roadmap.MoveWithinLane` | src/app/page.tsx:116-126 | same source and target: the task moves to the end of its lane, the length is kept, other lanes are untouched, and the board is unchanged if and only if the task was already last |
| `Roadmap.SpliceThenPushKeepsTasks` | src/app/page.tsx:124-126 | splice followed by push keeps the multiset of the board's tasks |
| `Roadmap.MovePreservesTasks` | src/app/page.tsx:115-128 | every drop, successful or not, keeps the multiset of tasks: none created, lost or altered |
| `Roadmap.MovePreservesWellFormed` | src/app/page.tsx:115-128 | a drop keeps lane-id and task-id uniqueness and the total number of tasks |
| `Roadmap.AddTo` | src/app/page.tsx:146-152 | appending keeps the number of lanes, their order, ids and titles |
| `Roadmap.AddToLane` | src/app/page.tsx:146-152 | with unique lane ids, the task is appended to the end of the lane with that id and every other lane is unchanged |
| `Roadmap.AddToUnknownLane` | src/app/page.tsx:147-150 | an id that matches no lane leaves the board unchanged |
| `Roadmap.AddPreservesWellFormed` | src/app/page.tsx:141-152 | with a fresh task id, adding keeps the board well formed, and the board gains exactly that task if the lane exists and nothing otherwise |
| `Roadmap.AppendKeepsWellFormed` | src/app/page.tsx:149 | pushing a fresh-id task onto one lane adds exactly that task and keeps ids unique |
| `Roadmap.AppendTasks` | src/app/page.tsx:149 | pushing onto one lane adds that one task to the board's multiset of tasks |
| `Roadmap.AppendIds` | src/app/page.tsx:149 | pushing onto one lane adds that one id to the board's multiset of ids |
| `Roadmap.Contents` | src/app/page.tsx:162 | one text per task, position by position the task's `content` |
| `Roadmap.Snapshot` | src/app/page.tsx:159-164 | the request has one entry per lane, in board order, each named by the lane's title and listing its task texts in order; there is no `currentTask` |
| `Roadmap.SnapshotAfterAdd` | src/app/page.tsx:159-164 | after an add to lane i, the snapshot differs only in entry i, whose list gains the new text at its end; names and order are kept |
| `Roadmap.SnapshotNamesAfterMove` | src/app/page.tsx:160-161 | a drop keeps the snapshot's lane names in board order |
| `Roadmap.SnapshotResolvesLikeBoard` | src/app/page.tsx:168 | resolving the answer's lane against board titles gives the same position as resolving it against the names in the request |
| `Roadmap.ApplySuggestion` | src/app/page.tsx:168-180 | the merge reports lane-not-found, with no new board, if and only if no lane title equals the answer's lane; a merged board keeps every lane's id and title in order |
| `Roadmap.ApplySuggestionToFirstMatch` | src/app/page.tsx:168-180 | the first lane whose title matches, and only that lane, gets `Task(newId, answer.task)` at its end, with the text verbatim |
| `Roadmap.ApplySuggestionPreservesWellFormed` | src/app/page.tsx:170-180 | with a fresh id, a merged suggestion keeps the board well formed |
| `Roadmap.EmptySuggestionIsStored` | src/app/page.tsx:170-173 | an empty suggested text becomes an empty task: there is no emptiness or trim check |
| `Roadmap.AddThenMoveScenario` | src/app/page.tsx:107-152 | on lanes To Do and Done: add "Write spec" to To Do, then drop it on Done; To Do ends empty and Done holds the task |
| `JsString.IsWhitespace` | src/components/AddTaskDialog.tsx:27 | space, tab, LF and CR count as whitespace; ASCII letters and digits do not; nothing above U+FEFF does |
| `JsString.Trim` | src/components/AddTaskDialog.tsx:27-28 | the trimmed text is no longer than the input and has no whitespace at either end |
| `JsString.TrimStart` | src/components/AddTaskDialog.tsx:27-28 | the result is a suffix of the input, everything removed is whitespace, and the result does not start with whitespace |
| `JsString.TrimEnd` | src/components/AddTaskDialog.tsx:27-28 | the result is a prefix of the input, everything removed is whitespace, and the result does not end with whitespace |
| `JsString.TrimIsCleanSlice` | src/components/AddTaskDialog.tsx:27-28 | `trim()` gives a contiguous slice with only whitespace cut on either side and no whitespace at either end |
| `JsString.TrimEmptyIff` | src/components/AddTaskDialog.tsx:27 | the dialog's guard fails if and only if the input is entirely whitespace |
| `JsString.TrimTrimmed` | src/components/AddTaskDialog.tsx:28 | text with no whitespace at either end is unchanged by trimming |
| `JsString.TrimIdempotent` | src/components/AddTaskDialog.tsx:28 | trimming twice is trimming once |
| `JsString.TrimPaddedText` | src/components/AddTaskDialog.tsx:27-28 | "  Buy milk  " is forwarded as "Buy milk" |
| `JsString.TrimBlankText` | src/components/AddTaskDialog.tsx:27 | "  " trims to empty, so the dialog refuses it |
| `TaskDialog.AddTaskDialog.constructor` | src/components/AddTaskDialog.tsx:24 | the text field starts empty |
| `TaskDialog.AddTaskDialog.HandleInputChange` | src/components/AddTaskDialog.tsx:49 | editing sets `taskContent` to the entered value |
| `TaskDialog.AddTaskDialog.HandleOpenChange` | src/components/AddTaskDialog.tsx:35 | the dialog's open state becomes the requested one |
| `TaskDialog.AddTaskDialog.HandleCancel` | src/components/AddTaskDialog.tsx:57 | Cancel closes the dialog, forwards nothing and keeps the typed text |
| `TaskDialog.AddTaskDialog.HandleSubmit` | src/components/AddTaskDialog.tsx:26-32 | blank-after-trim input forwards nothing and changes no state; other input forwards exactly its `trim()` once, clears the field and closes the dialog; anything forwarded is non-empty with no whitespace at either end |
| `Page.InitialLanes` | src/app/page.tsx:13-71 | five lanes, and no lane or task has the empty id that the drop and add guards treat as missing |
| `Page.NewTaskId` | src/app/page.tsx:142 | the id is the prefix `task-` followed by the uuid, which can be read back from it |
| `Page.InitialLanesWellFormed` | src/app/page.tsx:13-71 | the five initial lanes have distinct ids and their 17 tasks have distinct ids |
| `Page.InitialTaskIdsListed` | src/app/page.tsx:13-71 | the initial task ids, lane after lane |
| `Page.Roadmapper.constructor` | src/app/page.tsx:75-87 | after the start-up effect the board is the initial lanes, well formed, with no lane selected, not suggesting, and the dialog closed and empty |
| `Page.Roadmapper.HandleDrop` | src/app/page.tsx:107-131 | an empty task id or source id changes nothing; otherwise the board becomes `Move` of the previous board; the invariant is kept |
| `Page.Roadmapper.HandleOpenAddTaskDialog` | src/app/page.tsx:133-136 | the lane is remembered and the dialog is open |
| `Page.Roadmapper.HandleAddTask` | src/app/page.tsx:138-154 | no selected lane (null or "") changes nothing; otherwise a task with the fresh id and the given text is appended to the lane with the selected id; the invariant is kept |
| `Page.Roadmapper.SubmitAddTaskDialog` | src/components/AddTaskDialog.tsx:26-32 | the forwarded value is None for blank-after-trim text and otherwise exactly the `trim()` of the typed text; blank text leaves the dialog's text, its open state and the board unchanged; otherwise the dialog is cleared and closed and the text is appended to the selected lane, or the board is unchanged when no lane (null or "") is selected; the invariant is kept |
| `Page.Roadmapper.StartSuggestTask` | src/app/page.tsx:157-164 | the busy flag is raised and the request is the snapshot of the current board |
| `Page.Roadmapper.FinishSuggestTask` | src/app/page.tsx:166-190 | a thrown error leaves the board unchanged; an answer is merged by `ApplySuggestion` or reported as lane-not-found; the busy flag is false on every path and the invariant is kept |
| `Page.Roadmapper.HandleSuggestTask` | src/app/page.tsx:156-191 | the service is asked with the board's snapshot; the board and the outcome follow its response as above; the flag is down afterwards |

## Left out

- Rendering: the JSX, the styling, the lane colours and icons (src/app/page.tsx:193-242, src/components/Swimlane.tsx, src/components/TaskCard.tsx). They only forward ids to the handlers.
- The Genkit prompt and flow in src/ai/flows/suggest-task.ts, a call into a language model. The service is an arbitrary function parameter. Only its request and response shapes are modelled, as `SuggestInput` and `SuggestOutput`.
- Browser drag plumbing: `dataTransfer`, `classList` and the `draggedTaskInfo` state (src/app/page.tsx:89-105, 130). A drop receives its two payload strings as arguments.
- Toasts and `console.error`. `SuggestStatus` records which of the three suggestion notices would be shown.
- The `isClient` flag and the loading screen. The constructor stands for the page after its start-up effect has run.
- Randomness of `crypto.randomUUID()`. The uuid is a parameter, and its freshness is a precondition of the handlers that create tasks.
- Asynchrony beyond the busy flag. A suggestion request is modelled as start (the flag goes up, the request is built), then the response, then finish (the merge, then the flag goes down). Events that could interleave while the request is awaited are not modelled.
- React state batching. The stale `lanes` closure of `handleSuggestTask` is also left out: the model resolves the answer's lane against the board as it is when the response arrives, which is the same board when nothing interleaves. The lane title shown in the add-task toast is also left out.
- Copying in `handleDrop`. The preliminary `map` that copies every lane and task array in `handleDrop` is the identity on the model's immutable sequences. The in-place `splice` and `push` on those private copies are sequence updates, since no other reference can observe them.
- Schema validation of the answer by the service framework. A malformed answer is covered by `Failed` (a thrown error) or by an answer whose lane title matches nothing.
