/**
 * The board operations of the roadmap page (src/app/page.tsx) as functions on
 * board values: the lane and task lookups, the drop (move), the append used
 * by manual and suggested tasks, the snapshot handed to the suggestion
 * service and the merge of its answer.
 */
module Roadmap {
  import opened Wrappers
  import opened Types
  import opened JsArray
  import opened BoardState

  /** `lanes.find(lane => lane.id === laneId)`, as the index of the lane found (-1: undefined). */
  function LaneIndex(b: Board, laneId: string): (r: int)
    ensures -1 <= r < |b|
    ensures 0 <= r ==> b[r].id == laneId
    ensures forall j :: 0 <= j < |b| && (r == -1 || j < r) ==> b[j].id != laneId
  {
    FindIndex(b, (l: Lane) => l.id == laneId)
  }

  /** `lanes.find(lane => lane.title === title)`, as an index (-1: undefined). */
  function TitleIndex(b: Board, title: string): (r: int)
    ensures -1 <= r < |b|
    ensures 0 <= r ==> b[r].title == title
    ensures forall j :: 0 <= j < |b| && (r == -1 || j < r) ==> b[j].title != title
  {
    FindIndex(b, (l: Lane) => l.title == title)
  }

  /** `tasks.findIndex(task => task.id === taskId)`. */
  function TaskIndex(ts: seq<Task>, taskId: string): (r: int)
    ensures -1 <= r < |ts|
    ensures 0 <= r ==> ts[r].id == taskId
    ensures forall j :: 0 <= j < |ts| && (r == -1 || j < r) ==> ts[j].id != taskId
  {
    FindIndex(ts, (t: Task) => t.id == taskId)
  }

  // ---------------------------------------------------------------------------
  // Drop: move a task to the end of a lane
  // ---------------------------------------------------------------------------

  /**
   * The board a drop produces: when the source lane, the target lane and the
   * task in the source lane are all found, every lane keeps its identity; the
   * source lane loses the task and the target lane gains it at its end (both
   * happen to the same lane when source and target coincide). Any failed
   * lookup yields the board unchanged.
   */
  function Move(b: Board, taskId: string, sourceLaneId: string, targetLaneId: string): (r: Board)
    ensures SameLanes(r, b)
  {
    var s := LaneIndex(b, sourceLaneId);
    var t := LaneIndex(b, targetLaneId);
    if s < 0 || t < 0 then b
    else
      var k := TaskIndex(b[s].tasks, taskId);
      if k < 0 then b
      else
        var moved := b[s].tasks[k];
        seq(|b|, j requires 0 <= j < |b| =>
          b[j].(tasks := (if j == s then RemoveAt(b[s].tasks, k) else b[j].tasks)
                         + (if j == t then [moved] else [])))
  }

  /**
   * The board a drop produces equals splicing the task out of the source lane
   * and then pushing it onto the target lane, one lane update after the other.
   */
  lemma MoveIsSpliceThenPush(b: Board, taskId: string, sourceLaneId: string, targetLaneId: string)
    requires 0 <= LaneIndex(b, sourceLaneId) && 0 <= LaneIndex(b, targetLaneId)
    requires 0 <= TaskIndex(b[LaneIndex(b, sourceLaneId)].tasks, taskId)
    ensures var s, t := LaneIndex(b, sourceLaneId), LaneIndex(b, targetLaneId);
            var k := TaskIndex(b[s].tasks, taskId);
            var spliced := b[s := b[s].(tasks := RemoveAt(b[s].tasks, k))];
            Move(b, taskId, sourceLaneId, targetLaneId)
              == spliced[t := spliced[t].(tasks := spliced[t].tasks + [b[s].tasks[k]])]
  {
    var s, t := LaneIndex(b, sourceLaneId), LaneIndex(b, targetLaneId);
    var k := TaskIndex(b[s].tasks, taskId);
    var spliced := b[s := b[s].(tasks := RemoveAt(b[s].tasks, k))];
    var pushed := spliced[t := spliced[t].(tasks := spliced[t].tasks + [b[s].tasks[k]])];
    var r := Move(b, taskId, sourceLaneId, targetLaneId);
    forall j | 0 <= j < |b| ensures r[j] == pushed[j] {
      if j != t {
        assert r[j].tasks == spliced[j].tasks + [];
      }
    }
  }

  /** Any failed lookup leaves the whole board as it was. */
  lemma MoveFailsClosed(b: Board, taskId: string, sourceLaneId: string, targetLaneId: string)
    ensures !HasLane(b, sourceLaneId) ==> Move(b, taskId, sourceLaneId, targetLaneId) == b
    ensures !HasLane(b, targetLaneId) ==> Move(b, taskId, sourceLaneId, targetLaneId) == b
    ensures (forall j, m :: 0 <= j < |b| && b[j].id == sourceLaneId && 0 <= m < |b[j].tasks|
               ==> b[j].tasks[m].id != taskId)
            ==> Move(b, taskId, sourceLaneId, targetLaneId) == b
  {
  }

  /** On a well-formed board the lanes and the task are located where they sit. */
  lemma LocateOnWellFormed(b: Board, s: nat, k: nat)
    requires WellFormed(b)
    requires s < |b| && k < |b[s].tasks|
    ensures LaneIndex(b, b[s].id) == s
    ensures TaskIndex(b[s].tasks, b[s].tasks[k].id) == k
  {
    LaneTaskIdsUnique(b, s);
  }

  /**
   * A drop between two different lanes: the task is no longer in the source
   * lane, it is the last task of the target lane, both lanes keep the order
   * of their other tasks, and every other lane is untouched.
   */
  lemma MoveBetweenLanes(b: Board, s: nat, t: nat, k: nat)
    requires WellFormed(b)
    requires s < |b| && t < |b| && s != t && k < |b[s].tasks|
    ensures var task := b[s].tasks[k];
            var r := Move(b, task.id, b[s].id, b[t].id);
            && r[s].tasks == RemoveAt(b[s].tasks, k)
            && r[t].tasks == b[t].tasks + [task]
            && r[t].tasks[|r[t].tasks| - 1] == task
            && (forall m :: 0 <= m < |r[s].tasks| ==> r[s].tasks[m].id != task.id)
            && (forall j :: 0 <= j < |b| && j != s && j != t ==> r[j] == b[j])
  {
    var ts := b[s].tasks;
    var task := ts[k];
    LocateOnWellFormed(b, s, k);
    assert LaneIndex(b, b[t].id) == t;
    var r := Move(b, task.id, b[s].id, b[t].id);
    assert r[s].tasks == RemoveAt(ts, k) + [];
    LaneTaskIdsUnique(b, s);
    forall m | 0 <= m < |r[s].tasks| ensures r[s].tasks[m].id != task.id {
      if m < k {
        assert r[s].tasks[m] == ts[m];
      } else {
        assert r[s].tasks[m] == ts[m + 1];
      }
    }
    forall j | 0 <= j < |b| && j != s && j != t ensures r[j] == b[j] {
      assert r[j].tasks == b[j].tasks + [];
    }
  }

  /**
   * A drop onto the task's own lane moves it to the end of that lane: the
   * lane keeps its length, the other tasks keep their order, every other
   * lane is untouched, and the board is unchanged exactly when the task was
   * already last.
   */
  lemma MoveWithinLane(b: Board, s: nat, k: nat)
    requires WellFormed(b)
    requires s < |b| && k < |b[s].tasks|
    ensures var task := b[s].tasks[k];
            var r := Move(b, task.id, b[s].id, b[s].id);
            && r[s].tasks == RemoveAt(b[s].tasks, k) + [task]
            && |r[s].tasks| == |b[s].tasks|
            && (forall j :: 0 <= j < |b| && j != s ==> r[j] == b[j])
            && (r == b <==> k == |b[s].tasks| - 1)
  {
    var ts := b[s].tasks;
    var task := ts[k];
    LocateOnWellFormed(b, s, k);
    var r := Move(b, task.id, b[s].id, b[s].id);
    forall j | 0 <= j < |b| && j != s ensures r[j] == b[j] {
      assert r[j].tasks == b[j].tasks + [];
    }
    if k == |ts| - 1 {
      assert RemoveAt(ts, k) + [task] == ts;
      assert r[s] == b[s];
      assert r == b;
    } else {
      LaneTaskIdsUnique(b, s);
      assert r[s].tasks[|ts| - 1] == task;
      assert ts[|ts| - 1] != task;
    }
  }

  /** Splicing a task out of one lane and pushing it onto another keeps the board's tasks. */
  lemma SpliceThenPushKeepsTasks(b: Board, s: nat, t: nat, k: nat)
    requires s < |b| && t < |b| && k < |b[s].tasks|
    ensures var spliced := b[s := b[s].(tasks := RemoveAt(b[s].tasks, k))];
            multiset(AllTasks(spliced[t := spliced[t].(tasks := spliced[t].tasks + [b[s].tasks[k]])]))
              == multiset(AllTasks(b))
  {
    var task := b[s].tasks[k];
    var rest := RemoveAt(b[s].tasks, k);
    var spliced := b[s := b[s].(tasks := rest)];
    var pushed := spliced[t := spliced[t].(tasks := spliced[t].tasks + [task])];
    ReplaceLane(b, s, b[s].(tasks := rest));
    ReplaceLane(spliced, t, spliced[t].(tasks := spliced[t].tasks + [task]));
    assert multiset(spliced[t].tasks + [task]) == multiset(spliced[t].tasks) + multiset{task};
    BagCancel(multiset(AllTasks(pushed)), multiset(AllTasks(spliced)), multiset(AllTasks(b)),
              multiset(spliced[t].tasks), multiset(b[s].tasks), multiset(rest), task);
  }

  /** The bag arithmetic behind a splice followed by a push. */
  lemma BagCancel(after: multiset<Task>, middle: multiset<Task>, before: multiset<Task>,
                  target: multiset<Task>, source: multiset<Task>, rest: multiset<Task>, task: Task)
    requires after + target == middle + (target + multiset{task})
    requires middle + source == before + rest
    requires rest + multiset{task} == source
    ensures after == before
  {
    assert after == (after + target) - target;
    assert before == (before + rest) - rest;
  }

  /** A drop neither creates, loses nor alters a task: the board holds the same tasks. */
  lemma MovePreservesTasks(b: Board, taskId: string, sourceLaneId: string, targetLaneId: string)
    ensures multiset(AllTasks(Move(b, taskId, sourceLaneId, targetLaneId))) == multiset(AllTasks(b))
  {
    var s, t := LaneIndex(b, sourceLaneId), LaneIndex(b, targetLaneId);
    if 0 <= s && 0 <= t && 0 <= TaskIndex(b[s].tasks, taskId) {
      MoveIsSpliceThenPush(b, taskId, sourceLaneId, targetLaneId);
      SpliceThenPushKeepsTasks(b, s, t, TaskIndex(b[s].tasks, taskId));
    }
  }

  /**
   * A drop keeps the board well formed and keeps its number of tasks; lane
   * count, order, ids and titles are kept by Move itself.
   */
  lemma MovePreservesWellFormed(b: Board, taskId: string, sourceLaneId: string, targetLaneId: string)
    requires WellFormed(b)
    ensures WellFormed(Move(b, taskId, sourceLaneId, targetLaneId))
    ensures |AllTasks(Move(b, taskId, sourceLaneId, targetLaneId))| == |AllTasks(b)|
  {
    var r := Move(b, taskId, sourceLaneId, targetLaneId);
    MovePreservesTasks(b, taskId, sourceLaneId, targetLaneId);
    IdsPermutation(AllTasks(r), AllTasks(b));
    assert |multiset(AllTasks(r))| == |multiset(AllTasks(b))|;
  }

  // ---------------------------------------------------------------------------
  // Append a task to a lane
  // ---------------------------------------------------------------------------

  /**
   * `lanes.map(lane => lane.id === laneId ? { ...lane, tasks: [...lane.tasks, task] } : lane)`:
   * the lane structure is kept.
   */
  function AddTo(b: Board, laneId: string, task: Task): (r: Board)
    ensures SameLanes(r, b)
  {
    seq(|b|, j requires 0 <= j < |b| =>
      if b[j].id == laneId then b[j].(tasks := b[j].tasks + [task]) else b[j])
  }

  /** With unique lane ids, the task lands at the end of that one lane and nowhere else. */
  lemma AddToLane(b: Board, i: nat, task: Task)
    requires UniqueLaneIds(b)
    requires i < |b|
    ensures AddTo(b, b[i].id, task) == b[i := b[i].(tasks := b[i].tasks + [task])]
  {
    var r := AddTo(b, b[i].id, task);
    var r' := b[i := b[i].(tasks := b[i].tasks + [task])];
    forall j | 0 <= j < |b| ensures r[j] == r'[j] {
    }
  }

  /** An id that names no lane leaves the board as it was. */
  lemma AddToUnknownLane(b: Board, laneId: string, task: Task)
    requires !HasLane(b, laneId)
    ensures AddTo(b, laneId, task) == b
  {
    var r := AddTo(b, laneId, task);
    forall j | 0 <= j < |b| ensures r[j] == b[j] {
    }
  }

  /**
   * Appending a task whose id is fresh keeps the board well formed; the board
   * gains exactly that task when the lane exists and nothing otherwise.
   */
  lemma AddPreservesWellFormed(b: Board, laneId: string, task: Task)
    requires WellFormed(b)
    requires !HasTaskId(b, task.id)
    ensures WellFormed(AddTo(b, laneId, task))
    ensures multiset(AllTasks(AddTo(b, laneId, task)))
            == multiset(AllTasks(b)) + if HasLane(b, laneId) then multiset{task} else multiset{}
  {
    var r := AddTo(b, laneId, task);
    if !HasLane(b, laneId) {
      AddToUnknownLane(b, laneId, task);
    } else {
      var i :| 0 <= i < |b| && b[i].id == laneId;
      AppendKeepsWellFormed(b, i, task);
      AddToLane(b, i, task);
    }
  }

  /** Pushing a task with a fresh id onto lane i adds exactly that task and keeps ids unique. */
  lemma AppendKeepsWellFormed(b: Board, i: nat, task: Task)
    requires WellFormed(b)
    requires i < |b|
    requires !HasTaskId(b, task.id)
    ensures var r := b[i := b[i].(tasks := b[i].tasks + [task])];
            WellFormed(r) && multiset(AllTasks(r)) == multiset(AllTasks(b)) + multiset{task}
  {
    var r := b[i := b[i].(tasks := b[i].tasks + [task])];
    AppendTasks(b, i, task);
    AppendIds(b, i, task);
    DistinctAdd(TaskIds(b), TaskIds(r), task.id);
    assert SameLanes(r, b);
  }

  /** Pushing a task onto lane i adds that task, once, to the board's tasks. */
  lemma AppendTasks(b: Board, i: nat, task: Task)
    requires i < |b|
    ensures multiset(AllTasks(b[i := b[i].(tasks := b[i].tasks + [task])])) == multiset(AllTasks(b)) + multiset{task}
  {
    var l := b[i].(tasks := b[i].tasks + [task]);
    ReplaceLane(b, i, l);
    assert multiset(l.tasks) == multiset(b[i].tasks) + multiset{task};
    ghost var m, m', lane := multiset(AllTasks(b[i := l])), multiset(AllTasks(b)), multiset(b[i].tasks);
    assert m + lane == m' + (lane + multiset{task});
    assert m == (m + lane) - lane;
  }

  /** Pushing a task onto lane i adds its id, once, to the board's identifiers. */
  lemma AppendIds(b: Board, i: nat, task: Task)
    requires i < |b|
    ensures multiset(TaskIds(b[i := b[i].(tasks := b[i].tasks + [task])])) == multiset(TaskIds(b)) + multiset{task.id}
  {
    var l := b[i].(tasks := b[i].tasks + [task]);
    ReplaceLaneIds(b, i, l);
    IdsConcat(b[i].tasks, [task]);
    var pre, mid, post := TaskIds(b[..i]), Ids(b[i].tasks), TaskIds(b[i + 1..]);
    assert multiset(TaskIds(b[i := l])) == multiset(pre) + (multiset(mid) + multiset{task.id}) + multiset(post);
    assert multiset(TaskIds(b)) == multiset(pre) + multiset(mid) + multiset(post);
  }

  // ---------------------------------------------------------------------------
  // Suggestion request and answer
  // ---------------------------------------------------------------------------

  /** One lane as the suggestion service sees it (suggest-task.ts, input schema). */
  datatype SuggestLane = SuggestLane(name: string, tasks: seq<string>)

  /** The suggestion request: every lane, and an optional hint that the page never sets. */
  datatype SuggestInput = SuggestInput(lanes: seq<SuggestLane>, currentTask: Option<string>)

  /** The suggestion answer: a task text and the title of the lane it belongs in. */
  datatype SuggestOutput = SuggestOutput(task: string, lane: string)

  /** `tasks.map(task => task.content)`. */
  function Contents(ts: seq<Task>): (r: seq<string>)
    ensures |r| == |ts|
    ensures forall i :: 0 <= i < |ts| ==> r[i] == ts[i].content
  {
    seq(|ts|, i requires 0 <= i < |ts| => ts[i].content)
  }

  /** The request built from the board: titles and task texts, no identifiers. */
  function Snapshot(b: Board): (r: SuggestInput)
    ensures |r.lanes| == |b| && r.currentTask == None
    ensures forall j :: 0 <= j < |b| ==> r.lanes[j].name == b[j].title && r.lanes[j].tasks == Contents(b[j].tasks)
  {
    SuggestInput(seq(|b|, j requires 0 <= j < |b| => SuggestLane(b[j].title, Contents(b[j].tasks))), None)
  }

  /**
   * After a task is appended to lane i, the snapshot differs only in that
   * lane's entry, whose task list gains the new text at its end.
   */
  lemma SnapshotAfterAdd(b: Board, i: nat, task: Task)
    requires UniqueLaneIds(b)
    requires i < |b|
    ensures var before := Snapshot(b).lanes;
            Snapshot(AddTo(b, b[i].id, task)).lanes
              == before[i := SuggestLane(b[i].title, before[i].tasks + [task.content])]
  {
    AddToLane(b, i, task);
    var before := Snapshot(b).lanes;
    var after := Snapshot(AddTo(b, b[i].id, task)).lanes;
    assert Contents(b[i].tasks + [task]) == Contents(b[i].tasks) + [task.content];
    forall j | 0 <= j < |b| ensures after[j] == before[i := SuggestLane(b[i].title, before[i].tasks + [task.content])][j] {
    }
  }

  /** A drop keeps the snapshot's lane names, in board order. */
  lemma SnapshotNamesAfterMove(b: Board, taskId: string, sourceLaneId: string, targetLaneId: string)
    ensures var before, after := Snapshot(b).lanes, Snapshot(Move(b, taskId, sourceLaneId, targetLaneId)).lanes;
            |after| == |before| && forall j :: 0 <= j < |after| ==> after[j].name == before[j].name
  {
  }

  /**
   * Resolving the answer's lane against the board's titles picks the same
   * position as resolving it against the names in the request.
   */
  lemma SnapshotResolvesLikeBoard(b: Board, title: string)
    ensures TitleIndex(b, title) == FindIndex(Snapshot(b).lanes, (e: SuggestLane) => e.name == title)
  {
    var snap := Snapshot(b).lanes;
    var i := TitleIndex(b, title);
    var i' := FindIndex(snap, (e: SuggestLane) => e.name == title);
    assert forall j :: 0 <= j < |b| ==> snap[j].name == b[j].title;
  }

  /**
   * Merging an answer: the task goes, text verbatim and with the given fresh
   * id, to the lane whose id is that of the first lane whose title equals the
   * answer's lane. The merge fails, changing nothing, exactly when no lane
   * has the answer's title, and a merge keeps every lane's id and title.
   */
  function ApplySuggestion(b: Board, answer: SuggestOutput, newId: string): (r: Option<Board>)
    ensures r.None? <==> forall j :: 0 <= j < |b| ==> b[j].title != answer.lane
    ensures r.Some? ==> SameLanes(r.value, b)
  {
    var i := TitleIndex(b, answer.lane);
    if i < 0 then None else Some(AddTo(b, b[i].id, Task(newId, answer.task)))
  }

  /** The first lane with a matching title, and only it, gains the suggested task at its end. */
  lemma ApplySuggestionToFirstMatch(b: Board, answer: SuggestOutput, newId: string, i: nat)
    requires UniqueLaneIds(b)
    requires i < |b| && b[i].title == answer.lane
    requires forall j :: 0 <= j < i ==> b[j].title != answer.lane
    ensures ApplySuggestion(b, answer, newId)
            == Some(b[i := b[i].(tasks := b[i].tasks + [Task(newId, answer.task)])])
  {
    assert TitleIndex(b, answer.lane) == i;
    AddToLane(b, i, Task(newId, answer.task));
  }

  /** A merge with a fresh id keeps the board well formed. */
  lemma ApplySuggestionPreservesWellFormed(b: Board, answer: SuggestOutput, newId: string)
    requires WellFormed(b)
    requires !HasTaskId(b, newId)
    ensures ApplySuggestion(b, answer, newId).Some? ==> WellFormed(ApplySuggestion(b, answer, newId).value)
  {
    var i := TitleIndex(b, answer.lane);
    if 0 <= i {
      AddPreservesWellFormed(b, b[i].id, Task(newId, answer.task));
    }
  }

  /**
   * The answer's text is not checked: an empty suggestion becomes an empty
   * task, unlike a task added through the dialog.
   */
  lemma EmptySuggestionIsStored()
    ensures var b := [Lane("todo", "To Do", [])];
            ApplySuggestion(b, SuggestOutput("", "To Do"), "task-1")
              == Some([Lane("todo", "To Do", [Task("task-1", "")])])
  {
    var b := [Lane("todo", "To Do", [])];
    ApplySuggestionToFirstMatch(b, SuggestOutput("", "To Do"), "task-1", 0);
    assert b[0].tasks + [Task("task-1", "")] == [Task("task-1", "")];
    assert b[0 := b[0].(tasks := b[0].tasks + [Task("task-1", "")])] == [Lane("todo", "To Do", [Task("task-1", "")])];
  }

  /**
   * A two-lane walk-through: a task added to "To Do" and then dropped on
   * "Done" leaves "To Do" empty and "Done" holding that one task.
   */
  lemma AddThenMoveScenario()
    ensures var start := [Lane("todo", "To Do", []), Lane("done", "Done", [])];
            var task := Task("task-1", "Write spec");
            var added := AddTo(start, "todo", task);
            && added == [Lane("todo", "To Do", [task]), Lane("done", "Done", [])]
            && Move(added, "task-1", "todo", "done") == [Lane("todo", "To Do", []), Lane("done", "Done", [task])]
  {
    var start := [Lane("todo", "To Do", []), Lane("done", "Done", [])];
    var task := Task("task-1", "Write spec");
    AddToLane(start, 0, task);
    assert start[0].tasks + [task] == [task];
    var added := AddTo(start, "todo", task);
    assert added == [Lane("todo", "To Do", [task]), Lane("done", "Done", [])];
    assert LaneIndex(added, "todo") == 0;
    assert added[0].id == "todo" && added[1].id == "done";
    assert "todo"[0] != "done"[0];
    assert added[0].id != "done";
    assert LaneIndex(added, "done") == 1;
    assert TaskIndex(added[0].tasks, "task-1") == 0;
    MoveIsSpliceThenPush(added, "task-1", "todo", "done");
  }
}
