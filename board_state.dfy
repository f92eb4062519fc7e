/**
 * Whole-board views and the board's invariants: lane identifiers are unique
 * and no task identifier occurs twice anywhere on the board.
 */
module BoardState {
  import opened Types

  /** Every task on the board, lane after lane, in board order. */
  function AllTasks(b: Board): (r: seq<Task>)
  {
    if b == [] then [] else b[0].tasks + AllTasks(b[1..])
  }

  /** The identifiers of a task sequence, position by position. */
  function Ids(ts: seq<Task>): (r: seq<string>)
    ensures |r| == |ts|
  {
    seq(|ts|, i requires 0 <= i < |ts| => ts[i].id)
  }

  /** The identifiers of all tasks on the board. */
  function TaskIds(b: Board): (r: seq<string>)
  {
    Ids(AllTasks(b))
  }

  /** No value occurs twice. */
  ghost predicate Distinct(s: seq<string>)
  {
    forall x :: multiset(s)[x] <= 1
  }

  predicate HasLane(b: Board, laneId: string)
  {
    exists j :: 0 <= j < |b| && b[j].id == laneId
  }

  predicate HasTaskId(b: Board, taskId: string)
  {
    taskId in TaskIds(b)
  }

  predicate UniqueLaneIds(b: Board)
  {
    forall i, j :: 0 <= i < j < |b| ==> b[i].id != b[j].id
  }

  ghost predicate UniqueTaskIds(b: Board)
  {
    Distinct(TaskIds(b))
  }

  /** The board invariant the page keeps. */
  ghost predicate WellFormed(b: Board)
  {
    UniqueLaneIds(b) && UniqueTaskIds(b)
  }

  /** Same number of lanes, and position by position the same ids and titles. */
  predicate SameLanes(a: Board, b: Board)
  {
    |a| == |b| && forall j :: 0 <= j < |a| ==> a[j].id == b[j].id && a[j].title == b[j].title
  }

  lemma IdsConcat(a: seq<Task>, b: seq<Task>)
    ensures Ids(a + b) == Ids(a) + Ids(b)
  {
  }

  /** The flattened board splits around any lane. */
  lemma {:induction false} AllTasksAt(b: Board, i: nat)
    requires i < |b|
    ensures AllTasks(b) == AllTasks(b[..i]) + b[i].tasks + AllTasks(b[i + 1..])
  {
    if i == 0 {
      assert b[..0] == [];
    } else {
      AllTasksAt(b[1..], i - 1);
      assert b[1..][..i - 1] == b[1..i];
      assert b[1..][i..] == b[i + 1..];
      assert b[..i][1..] == b[1..i];
    }
  }

  /** Replacing one lane trades its tasks for the new lane's tasks. */
  lemma ReplaceLane(b: Board, i: nat, l: Lane)
    requires i < |b|
    ensures multiset(AllTasks(b[i := l])) + multiset(b[i].tasks) == multiset(AllTasks(b)) + multiset(l.tasks)
  {
    var b' := b[i := l];
    AllTasksAt(b, i);
    AllTasksAt(b', i);
    assert b'[..i] == b[..i];
    assert b'[i + 1..] == b[i + 1..];
  }

  /** The identifiers of a board with one lane replaced, split around that lane. */
  lemma ReplaceLaneIds(b: Board, i: nat, l: Lane)
    requires i < |b|
    ensures TaskIds(b[i := l]) == TaskIds(b[..i]) + Ids(l.tasks) + TaskIds(b[i + 1..])
    ensures TaskIds(b) == TaskIds(b[..i]) + Ids(b[i].tasks) + TaskIds(b[i + 1..])
  {
    var b' := b[i := l];
    AllTasksAt(b, i);
    AllTasksAt(b', i);
    assert b'[..i] == b[..i];
    assert b'[i + 1..] == b[i + 1..];
    IdsConcat(AllTasks(b[..i]) + l.tasks, AllTasks(b[i + 1..]));
    IdsConcat(AllTasks(b[..i]), l.tasks);
    IdsConcat(AllTasks(b[..i]) + b[i].tasks, AllTasks(b[i + 1..]));
    IdsConcat(AllTasks(b[..i]), b[i].tasks);
  }

  /** Identifier bags follow task bags: a permutation of tasks permutes their ids. */
  lemma {:induction false} IdsPermutation(x: seq<Task>, y: seq<Task>)
    requires multiset(x) == multiset(y)
    ensures multiset(Ids(x)) == multiset(Ids(y))
    decreases |x|
  {
    if x == [] {
      assert |y| == |multiset(y)| == 0;
    } else {
      var t := x[0];
      assert t in multiset(y);
      var m :| 0 <= m < |y| && y[m] == t;
      var y' := y[..m] + y[m + 1..];
      assert y == y[..m] + [t] + y[m + 1..];
      assert x == [t] + x[1..];
      assert multiset(x) == multiset{t} + multiset(x[1..]);
      assert multiset(y) == multiset(y[..m]) + multiset{t} + multiset(y[m + 1..]);
      assert multiset(y') == multiset(y[..m]) + multiset(y[m + 1..]);
      assert multiset(x[1..]) == multiset(x) - multiset{t};
      assert multiset(y') == multiset(y) - multiset{t};
      IdsPermutation(x[1..], y');
      IdsConcat([t], x[1..]);
      IdsConcat(y[..m] + [t], y[m + 1..]);
      IdsConcat(y[..m], [t]);
      IdsConcat(y[..m], y[m + 1..]);
    }
  }

  /** Under Distinct no two positions hold the same value. */
  lemma DistinctNoRepeat(s: seq<string>, i: nat, j: nat)
    requires Distinct(s)
    requires i < j < |s|
    ensures s[i] != s[j]
  {
    assert s == s[..j] + [s[j]] + s[j + 1..];
    assert multiset(s) == multiset(s[..j]) + multiset{s[j]} + multiset(s[j + 1..]);
    assert s[..j][i] == s[i];
    assert multiset(s)[s[i]] >= multiset(s[..j])[s[i]] + multiset{s[j]}[s[i]];
  }

  /** Adding one value that was absent keeps a sequence Distinct. */
  lemma DistinctAdd(s: seq<string>, s': seq<string>, x: string)
    requires Distinct(s) && x !in s
    requires multiset(s') == multiset(s) + multiset{x}
    ensures Distinct(s')
  {
    forall y ensures multiset(s')[y] <= 1 {
      assert multiset(s')[y] == multiset(s)[y] + multiset{x}[y];
    }
  }

  /** Pairwise different values make a sequence Distinct. */
  lemma {:induction false} DistinctFromPairwise(s: seq<string>)
    requires forall i, j :: 0 <= i < j < |s| ==> s[i] != s[j]
    ensures Distinct(s)
  {
    if s != [] {
      DistinctFromPairwise(s[1..]);
      assert s == [s[0]] + s[1..];
      assert s[0] !in s[1..];
    }
  }

  /** Under the task-id invariant, the tasks of any one lane have distinct ids. */
  lemma LaneTaskIdsUnique(b: Board, k: nat)
    requires UniqueTaskIds(b)
    requires k < |b|
    ensures forall i, j :: 0 <= i < j < |b[k].tasks| ==> b[k].tasks[i].id != b[k].tasks[j].id
  {
    var ts := b[k].tasks;
    AllTasksAt(b, k);
    IdsConcat(AllTasks(b[..k]) + ts, AllTasks(b[k + 1..]));
    IdsConcat(AllTasks(b[..k]), ts);
    assert Distinct(Ids(ts)) by {
      forall x ensures multiset(Ids(ts))[x] <= 1 {
        assert multiset(Ids(ts))[x] <= multiset(TaskIds(b))[x];
      }
    }
    forall i, j | 0 <= i < j < |ts| ensures ts[i].id != ts[j].id {
      DistinctNoRepeat(Ids(ts), i, j);
    }
  }
}
