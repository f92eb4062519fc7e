/**
 * The roadmap page (src/app/page.tsx): its state and the event handlers that
 * change it: drop, opening the add-task dialog, adding a task, and the
 * suggestion request with its busy flag.
 */
module Page {
  import opened Wrappers
  import opened Types
  import opened BoardState
  import opened Roadmap
  import opened TaskDialog
  import opened JsArray
  import JsString

  /**
   * The lanes the page starts with (colours left out): five lanes, and no
   * lane or task carries the empty id that the drop guard treats as missing.
   */
  function InitialLanes(): (r: Board)
    ensures |r| == 5
    ensures forall j :: 0 <= j < |r| ==> r[j].id != "" && forall m :: 0 <= m < |r[j].tasks| ==> r[j].tasks[m].id != ""
  {
    [
    Lane("planning", "Planning", [
      Task("task-pl1", "Q3 Roadmap Planning"),
      Task("task-pl2", "Define V2.0.0 Scope")]),
    Lane("development", "Development", [
      Task("task-d1", "Setup CI/CD Pipeline"),
      Task("task-d2", "Backend API for User Profiles"),
      Task("task-d3", "Frontend Component Library Setup"),
      Task("task-d4", "Database Schema Design")]),
    Lane("upcoming-release", "Upcoming Release", [
      Task("task-ur1", "Finalize V2.0.0 Feature Set"),
      Task("task-ur2", "Alpha Release Candidate Build"),
      Task("task-ur3", "User Acceptance Testing (UAT)"),
      Task("task-ur4", "Prepare Launch Communications")]),
    Lane("ux-ui", "UX & UI", [
      Task("task-ux1", "User Persona Definition"),
      Task("task-ux2", "Wireframing Key Screens"),
      Task("task-ux3", "High-Fidelity Mockups"),
      Task("task-ux4", "Usability Testing Round 1")]),
    Lane("strategy", "Strategy & Marketing", [
      Task("task-s1", "Competitor Analysis Q1"),
      Task("task-s2", "Content Marketing Plan"),
      Task("task-s3", "Social Media Campaign Launch")])
    ]
  }

  /** The identifiers of the seventeen initial tasks, lane after lane. */
  const InitialTaskIds: seq<string> := [
    "task-pl1", "task-pl2", "task-d1", "task-d2", "task-d3", "task-d4",
    "task-ur1", "task-ur2", "task-ur3", "task-ur4",
    "task-ux1", "task-ux2", "task-ux3", "task-ux4",
    "task-s1", "task-s2", "task-s3"]

  /** The initial lanes have distinct ids and so do their seventeen tasks. */
  lemma InitialLanesWellFormed()
    ensures WellFormed(InitialLanes())
    ensures |AllTasks(InitialLanes())| == 17
  {
    InitialTaskIdsListed();
    DistinctFromPairwise(InitialTaskIds);
  }

  lemma InitialTaskIdsListed()
    ensures TaskIds(InitialLanes()) == InitialTaskIds
  {
    var b := InitialLanes();
    assert AllTasks(b[4..]) == b[4].tasks + AllTasks(b[5..]);
    assert AllTasks(b[3..]) == b[3].tasks + AllTasks(b[4..]);
    assert AllTasks(b[2..]) == b[2].tasks + AllTasks(b[3..]);
    assert AllTasks(b[1..]) == b[1].tasks + AllTasks(b[2..]);
    var all := b[0].tasks + b[1].tasks + b[2].tasks + b[3].tasks + b[4].tasks;
    assert AllTasks(b) == all;
    assert |all| == 17;
    forall i | 0 <= i < 17 ensures Ids(all)[i] == InitialTaskIds[i] {
    }
  }

  /** The id `task-${crypto.randomUUID()}` given to a new task, for a supplied uuid. */
  function NewTaskId(uuid: string): (id: string)
    ensures |id| == |uuid| + 5 && id[..5] == "task-" && id[5..] == uuid
  {
    "task-" + uuid
  }

  /** How the awaited `suggestTask` call ends: with an answer, or by throwing. */
  datatype SuggestResponse = Answered(output: SuggestOutput) | Failed

  /** Which of the three notices the suggestion handler shows. */
  datatype SuggestStatus = Added | LaneNotFound | RequestFailed

  class Roadmapper {
    var lanes: Board
    var currentLaneIdForAddingTask: Option<string>
    var isSuggestingTask: bool
    /** The add-task dialog; its `open` field is the page's `isAddTaskDialogOpen`. */
    const dialog: AddTaskDialog

    /** The board invariant: unique lane ids and unique task ids. */
    ghost predicate Valid()
      reads this
    {
      WellFormed(lanes)
    }

    /** The page once its start-up effect has loaded the initial lanes. */
    constructor ()
      ensures Valid() && lanes == InitialLanes()
      ensures currentLaneIdForAddingTask == None && !isSuggestingTask
      ensures fresh(dialog) && !dialog.open && dialog.taskContent == ""
    {
      InitialLanesWellFormed();
      lanes := InitialLanes();
      currentLaneIdForAddingTask := None;
      isSuggestingTask := false;
      dialog := new AddTaskDialog(false);
    }

    /**
     * A drop on the lane `targetLaneId` carrying `taskId` and `sourceLaneId`
     * (an absent drag datum reads as ""). Blank data does nothing; otherwise
     * the board becomes the Move of the previous board.
     */
    method HandleDrop(taskId: string, sourceLaneId: string, targetLaneId: string)
      requires Valid()
      modifies this`lanes
      ensures Valid()
      ensures taskId == "" || sourceLaneId == "" ==> lanes == old(lanes)
      ensures taskId != "" && sourceLaneId != "" ==>
                lanes == Move(old(lanes), taskId, sourceLaneId, targetLaneId)
    {
      if taskId == "" || sourceLaneId == "" {
        return;
      }
      var prevLanes := lanes;
      // the copy of every lane and of its task array
      var newLanes := prevLanes;
      var sourceLane := LaneIndex(newLanes, sourceLaneId);
      var targetLane := LaneIndex(newLanes, targetLaneId);
      if sourceLane < 0 || targetLane < 0 {
        lanes := prevLanes;
        return;
      }
      var taskIndex := TaskIndex(newLanes[sourceLane].tasks, taskId);
      if taskIndex < 0 {
        lanes := prevLanes;
        return;
      }
      var taskToMove := newLanes[sourceLane].tasks[taskIndex];
      // sourceLane.tasks.splice(taskIndex, 1)
      newLanes := newLanes[sourceLane := newLanes[sourceLane].(tasks := RemoveAt(newLanes[sourceLane].tasks, taskIndex))];
      // targetLane.tasks.push(taskToMove)
      newLanes := newLanes[targetLane := newLanes[targetLane].(tasks := newLanes[targetLane].tasks + [taskToMove])];
      MoveIsSpliceThenPush(prevLanes, taskId, sourceLaneId, targetLaneId);
      MovePreservesWellFormed(prevLanes, taskId, sourceLaneId, targetLaneId);
      lanes := newLanes;
    }

    /** The "add task" button of a lane: remember the lane and open the dialog. */
    method HandleOpenAddTaskDialog(laneId: string)
      modifies this`currentLaneIdForAddingTask, dialog`open
      ensures currentLaneIdForAddingTask == Some(laneId) && dialog.open
    {
      currentLaneIdForAddingTask := Some(laneId);
      dialog.HandleOpenChange(true);
    }

    /**
     * `onAddTask`: with no selected lane (or the empty id) nothing happens;
     * otherwise a task with the fresh id and the given text is appended to
     * every lane whose id is the selected one.
     */
    method HandleAddTask(taskContent: string, uuid: string)
      requires Valid()
      requires !HasTaskId(lanes, NewTaskId(uuid))
      modifies this`lanes
      ensures Valid()
      ensures currentLaneIdForAddingTask.None? || currentLaneIdForAddingTask.value == "" ==>
                lanes == old(lanes)
      ensures currentLaneIdForAddingTask.Some? && currentLaneIdForAddingTask.value != "" ==>
                lanes == AddTo(old(lanes), currentLaneIdForAddingTask.value, Task(NewTaskId(uuid), taskContent))
    {
      if currentLaneIdForAddingTask.None? || currentLaneIdForAddingTask.value == "" {
        return;
      }
      var newTask := Task(NewTaskId(uuid), taskContent);
      AddPreservesWellFormed(lanes, currentLaneIdForAddingTask.value, newTask);
      lanes := AddTo(lanes, currentLaneIdForAddingTask.value, newTask);
    }

    /**
     * The dialog's Add Task button wired to the page: blank text keeps the
     * dialog and the board as they were; otherwise the trimmed text, which is
     * non-empty, goes to the selected lane and the dialog is cleared and closed.
     */
    method SubmitAddTaskDialog(uuid: string) returns (added: Option<string>)
      requires Valid()
      requires !HasTaskId(lanes, NewTaskId(uuid))
      modifies this`lanes, dialog
      ensures Valid()
      ensures added == (if JsString.Trim(old(dialog.taskContent)) == [] then None
                        else Some(JsString.Trim(old(dialog.taskContent))))
      ensures added.Some? ==> added.value != [] && JsString.IsTrimmed(added.value)
      ensures added.Some? ==> dialog.taskContent == "" && !dialog.open
      ensures added.None? ==> dialog.taskContent == old(dialog.taskContent) && dialog.open == old(dialog.open)
      ensures added.None? ==> lanes == old(lanes)
      ensures added.Some? && (currentLaneIdForAddingTask.None? || currentLaneIdForAddingTask.value == "") ==>
                lanes == old(lanes)
      ensures added.Some? && currentLaneIdForAddingTask.Some? && currentLaneIdForAddingTask.value != "" ==>
                lanes == AddTo(old(lanes), currentLaneIdForAddingTask.value, Task(NewTaskId(uuid), added.value))
    {
      added := dialog.HandleSubmit();
      if added.Some? {
        HandleAddTask(added.value, uuid);
      }
    }

    /** The suggestion request begins: the flag is raised and the request is built from the board. */
    method StartSuggestTask() returns (request: SuggestInput)
      modifies this`isSuggestingTask
      ensures isSuggestingTask
      ensures request == Snapshot(lanes)
    {
      isSuggestingTask := true;
      request := Snapshot(lanes);
    }

    /**
     * The suggestion request ends: an answer whose lane title matches is
     * merged, any other outcome leaves the board alone, and in every case the
     * flag is lowered.
     */
    method FinishSuggestTask(response: SuggestResponse, uuid: string) returns (status: SuggestStatus)
      requires Valid()
      requires !HasTaskId(lanes, NewTaskId(uuid))
      modifies this`lanes, this`isSuggestingTask
      ensures Valid() && !isSuggestingTask
      ensures response.Failed? ==> status == RequestFailed && lanes == old(lanes)
      ensures response.Answered? ==>
                match ApplySuggestion(old(lanes), response.output, NewTaskId(uuid))
                case None => status == LaneNotFound && lanes == old(lanes)
                case Some(b) => status == Added && lanes == b
    {
      match response {
        case Failed =>
          status := RequestFailed;
        case Answered(result) =>
          var targetLane := TitleIndex(lanes, result.lane);
          if 0 <= targetLane {
            var newTask := Task(NewTaskId(uuid), result.task);
            ApplySuggestionPreservesWellFormed(lanes, result, NewTaskId(uuid));
            lanes := AddTo(lanes, lanes[targetLane].id, newTask);
            status := Added;
          } else {
            status := LaneNotFound;
          }
      }
      // the `finally` block
      isSuggestingTask := false;
    }

    /**
     * The whole suggestion handler, with the service as the function
     * `suggest`: the service sees the board's snapshot, and afterwards the
     * flag is down whatever the outcome.
     */
    method HandleSuggestTask(suggest: SuggestInput -> SuggestResponse, uuid: string) returns (status: SuggestStatus)
      requires Valid()
      requires !HasTaskId(lanes, NewTaskId(uuid))
      modifies this`lanes, this`isSuggestingTask
      ensures Valid() && !isSuggestingTask
      ensures var response := suggest(Snapshot(old(lanes)));
              match response
              case Failed => status == RequestFailed && lanes == old(lanes)
              case Answered(output) =>
                match ApplySuggestion(old(lanes), output, NewTaskId(uuid))
                case None => status == LaneNotFound && lanes == old(lanes)
                case Some(b) => status == Added && lanes == b
    {
      var request := StartSuggestTask();
      var response := suggest(request);
      status := FinishSuggestTask(response, uuid);
    }
  }
}
