/**
 * The board (`App` in src/app.rs): the tracker columns, which of them is active, the
 * detail-view scroll offset and the current navigation state.
 */
module Application {
  import opened Options
  import opened Seqs
  import opened Lists

  /**
   * The navigation mode: the tracker itself, or a screen wrapping the mode to return to.
   * src/app.rs declares only two unit variants; this ten-variant form is the
   * one src/events.rs and src/ui.rs use.
   */
  datatype AppState =
    | Tracker
    | TaskView(prev: AppState)
    | BacklogPopup(prev: AppState)
    | ArchivePopup(prev: AppState)
    | EditTask(prev: AppState)
    | CreateTask(prev: AppState)
    | DeleteTask(prev: AppState)
    | EditList(prev: AppState)
    | CreateList(prev: AppState)
    | DeleteList(prev: AppState)

  /** How many return states are stacked under `s`. */
  function Depth(s: AppState): nat
  {
    if s.Tracker? then 0 else 1 + Depth(s.prev)
  }

  /** The selection `list_down` stores on a non-empty list of `len` tasks. */
  function DownIndex(selected: Option<nat>, len: nat): (r: nat)
    requires len > 0
    ensures r < len
    ensures selected.None? ==> r == 0
    ensures selected.Some? && selected.value < len ==> r == (selected.value + 1) % len
    ensures selected.Some? && selected.value >= len ==> r == 0
  {
    match selected
    case Some(i) => if i >= len - 1 then 0 else i + 1
    case None => 0
  }

  /**
   * The selection `list_up` stores on a non-empty list of `len` tasks. A stale
   * selection beyond the end is only decremented, so it can stay out of range.
   */
  function UpIndex(selected: Option<nat>, len: nat): (r: nat)
    requires len > 0
    ensures selected.None? ==> r == len - 1
    ensures selected.Some? && selected.value < len ==> r == (selected.value + len - 1) % len
    ensures selected.Some? && selected.value <= len ==> r < len
    ensures selected.Some? && selected.value >= len ==> r == selected.value - 1
  {
    match selected
    case Some(i) => if i == 0 then len - 1 else i - 1
    case None => len - 1
  }

  /** From an in-range selection, `list_down` then `list_up` comes back, and vice versa. */
  lemma UpDownInverse(i: nat, len: nat)
    requires i < len
    ensures UpIndex(Some(DownIndex(Some(i), len)), len) == i
    ensures DownIndex(Some(UpIndex(Some(i), len)), len) == i
  {
  }

  /** The selection after `k` presses of `list_down`, starting from index `i`. */
  function DownTimes(i: nat, len: nat, k: nat): nat
    requires len > 0
    decreases k
  {
    if k == 0 then i else DownTimes(DownIndex(Some(i), len), len, k - 1)
  }

  lemma {:induction false} DownTimesAdd(i: nat, len: nat, a: nat, b: nat)
    requires len > 0
    ensures DownTimes(i, len, a + b) == DownTimes(DownTimes(i, len, a), len, b)
    decreases a
  {
    if a > 0 {
      DownTimesAdd(DownIndex(Some(i), len), len, a - 1, b);
    }
  }

  lemma {:induction false} DownTimesWithin(i: nat, len: nat, k: nat)
    requires i + k < len
    ensures DownTimes(i, len, k) == i + k
    decreases k
  {
    if k > 0 {
      DownTimesWithin(i + 1, len, k - 1);
    }
  }

  /** `len` presses of `list_down` bring any in-range selection back to where it was. */
  lemma DownCycle(i: nat, len: nat)
    requires i < len
    ensures DownTimes(i, len, len) == i
  {
    var toEnd := len - 1 - i;
    DownTimesWithin(i, len, toEnd);
    DownTimesAdd(i, len, toEnd, 1);
    assert DownTimes(i, len, toEnd + 1) == 0;
    DownTimesAdd(i, len, toEnd + 1, i);
    DownTimesWithin(0, len, i);
  }

  /** `next_list`: the active column moves right, wrapping from the last to the first. */
  function NextIndex(a: nat, n: nat): (r: nat)
    requires a < n
    ensures r < n
    ensures r == if a == n - 1 then 0 else a + 1
  {
    (a + 1) % n
  }

  /** `prev_list`: the active column moves left, wrapping from the first to the last. */
  function PrevIndex(a: nat, n: nat): (r: nat)
    requires a < n
    ensures r < n && NextIndex(r, n) == a
  {
    if a == 0 then n - 1 else a - 1
  }

  /** `next_list` and `prev_list` undo each other. */
  lemma NextPrevInverse(a: nat, n: nat)
    requires a < n
    ensures PrevIndex(NextIndex(a, n), n) == a
    ensures NextIndex(PrevIndex(a, n), n) == a
  {
  }

  /**
   * The selection a column keeps after its selected task `i` was removed, leaving
   * `newLen` tasks: none when the column emptied, the new last index when the tail
   * was removed, otherwise the same index. It restores the selection invariant.
   */
  function SelectionAfterRemove(i: nat, newLen: nat): (r: Option<nat>)
    requires i <= newLen
    ensures SelectionValid(r, newLen)
    ensures i < newLen ==> r == Some(i)
    ensures r.Some? ==> r.value == i || r.value + 1 == i
  {
    if newLen == 0 then None
    else if i == newLen then Some(i - 1)
    else Some(i)
  }

  /** A `u8` reinterpreted as `i8`. */
  function AsI8(x: int): (r: int)
    requires 0 <= x < 256
    ensures -128 <= r < 128 && (r - x) % 256 == 0
  {
    if x < 128 then x else x - 256
  }

  /** A `u16` reinterpreted as `i16`. */
  function AsI16(x: int): (r: int)
    requires 0 <= x < 65536
    ensures -32768 <= r < 32768 && (r - x) % 65536 == 0
  {
    if x < 32768 then x else x - 65536
  }

  /**
   * The colour `cycle_list_color(amount)` stores: always one of 1..7, the plain sum when
   * that is in range, otherwise wrapped to the opposite end.
   */
  function CycledColor(color: int, amount: int): (r: int)
    requires 0 <= color < 256 && -128 <= amount < 128
    requires -128 <= AsI8(color) + amount < 128
    ensures 1 <= r <= 7
    ensures 1 <= AsI8(color) + amount <= 7 ==> r == AsI8(color) + amount
    ensures AsI8(color) + amount < 1 ==> r == 7
    ensures AsI8(color) + amount > 7 ==> r == 1
  {
    var newColor := AsI8(color) + amount;
    if newColor < 1 then 7 else if newColor > 7 then 1 else newColor
  }

  /** Stepping the colour forward then back from any of 1..7 returns to it, and both ends wrap. */
  lemma ColorCycleInverse(c: int)
    requires 1 <= c <= 7
    ensures CycledColor(CycledColor(c, 1), -1) == c
    ensures CycledColor(CycledColor(c, -1), 1) == c
    ensures CycledColor(7, 1) == 1 && CycledColor(1, -1) == 7
  {
  }

  /** The scroll `scroll_details(amount)` stores: the shifted offset, never below 0. */
  function ScrolledBy(scroll: int, amount: int): (r: nat)
    requires 0 <= scroll < 65536 && -32768 <= amount < 32768
    requires -32768 <= AsI16(scroll) + amount < 32768
    ensures r < 32768
    ensures AsI16(scroll) + amount >= 0 ==> r == AsI16(scroll) + amount
    ensures AsI16(scroll) + amount < 0 ==> r == 0
  {
    var newScroll := AsI16(scroll) + amount;
    if newScroll < 0 then 0 else newScroll
  }

  /** A selection `Vec::remove` and indexing accept: absent, or a valid index. */
  predicate SelectionUsable(selected: Option<nat>, len: nat)
  {
    selected.Some? ==> selected.value < len
  }

  /**
   * Takes the selected task `i` out of `list` and repairs the selection as
   * `move_task_to_next_list` and `move_task_to_prev_list` do.
   */
  method TakeSelected(list: TaskList, i: nat) returns (task: Task)
    requires i < |list.tasks| && list.selected == Some(i)
    modifies list
    ensures task == old(list.tasks)[i]
    ensures list.tasks == RemoveAt(old(list.tasks), i)
    ensures list.selected == SelectionAfterRemove(i, |list.tasks|)
    ensures list.name == old(list.name) && list.colorIndex == old(list.colorIndex)
  {
    task := list.Remove(i);
    if |list.tasks| == 0 {
      list.Select(None);
    } else if i == |list.tasks| {
      list.Select(Some(i - 1));
    }
  }

  /** Appends `task` to `list` and selects it there. */
  method AppendSelected(list: TaskList, task: Task)
    modifies list
    ensures list.tasks == old(list.tasks) + [task]
    ensures list.selected == Some(|list.tasks| - 1)
    ensures list.name == old(list.name) && list.colorIndex == old(list.colorIndex)
  {
    list.Push(task);
    list.Select(Some(|list.tasks| - 1));
  }

  class App {
    var state: AppState
    var taskLists: seq<TaskList>
    var activeList: nat
    var detailScroll: nat

    ghost predicate Valid()
      reads this
    {
      && 1 <= |taskLists|
      && activeList < |taskLists|
      && (forall i, j :: 0 <= i < j < |taskLists| ==> taskLists[i] != taskLists[j])
      && detailScroll < 65536
    }

    /** The number of tasks in each column. */
    ghost function Sizes(): (sizes: seq<nat>)
      reads this, taskLists
      ensures |sizes| == |taskLists|
      ensures forall j :: 0 <= j < |taskLists| ==> sizes[j] == |taskLists[j].tasks|
    {
      seq(|taskLists|, j reads this, taskLists requires 0 <= j < |taskLists| => |taskLists[j].tasks|)
    }

    /**
     * Three empty columns "Planned" (colour 5), "In Progress" (3) and "Completed" (2),
     * the first one active. Every column gets the selection `Some(0)` although it is
     * empty, so the selection invariant does not hold initially.
     */
    constructor New()
      ensures Valid()
      ensures state == Tracker && activeList == 0 && detailScroll == 0
      ensures |taskLists| == 3
      ensures taskLists[0].name == "Planned" && taskLists[0].colorIndex == 5
      ensures taskLists[1].name == "In Progress" && taskLists[1].colorIndex == 3
      ensures taskLists[2].name == "Completed" && taskLists[2].colorIndex == 2
      ensures forall i :: 0 <= i < 3 ==> fresh(taskLists[i])
      ensures forall i :: 0 <= i < 3 ==> taskLists[i].tasks == [] && taskLists[i].selected == Some(0)
      ensures forall i :: 0 <= i < 3 ==> !SelectionValid(taskLists[i].selected, |taskLists[i].tasks|)
    {
      var planned := new TaskList.From("Planned");
      planned.colorIndex := 5;
      var inProgress := new TaskList.From("In Progress");
      inProgress.colorIndex := 3;
      var completed := new TaskList.From("Completed");
      completed.colorIndex := 2;
      state := Tracker;
      taskLists := [planned, inProgress, completed];
      activeList := 0;
      detailScroll := 0;
      new;
      for i := 0 to |taskLists|
        invariant taskLists == [planned, inProgress, completed]
        invariant state == Tracker && activeList == 0 && detailScroll == 0
        invariant planned.name == "Planned" && planned.colorIndex == 5
        invariant inProgress.name == "In Progress" && inProgress.colorIndex == 3
        invariant completed.name == "Completed" && completed.colorIndex == 2
        invariant forall k :: 0 <= k < 3 ==> taskLists[k].tasks == []
        invariant forall k :: 0 <= k < i ==> taskLists[k].selected == Some(0)
      {
        taskLists[i].Select(Some(0));
      }
    }

    /** `list_down`: cyclic move of the selection toward the bottom; no-op on an empty list. */
    method ListDown()
      requires Valid()
      modifies taskLists[activeList]
      ensures Valid()
      ensures var l := taskLists[activeList];
        && l.tasks == old(l.tasks) && l.name == old(l.name) && l.colorIndex == old(l.colorIndex)
        && l.selected == if l.tasks == [] then old(l.selected) else Some(DownIndex(old(l.selected), |l.tasks|))
    {
      var list := taskLists[activeList];
      if !list.IsEmpty() {
        var i := match list.selected
          case Some(i) => if i >= |list.tasks| - 1 then 0 else i + 1
          case None => 0;
        list.Select(Some(i));
      }
    }

    /** `list_up`: cyclic move of the selection toward the top; no-op on an empty list. */
    method ListUp()
      requires Valid()
      modifies taskLists[activeList]
      ensures Valid()
      ensures var l := taskLists[activeList];
        && l.tasks == old(l.tasks) && l.name == old(l.name) && l.colorIndex == old(l.colorIndex)
        && l.selected == if l.tasks == [] then old(l.selected) else Some(UpIndex(old(l.selected), |l.tasks|))
    {
      var list := taskLists[activeList];
      if !list.IsEmpty() {
        var i := match list.selected
          case Some(i) => if i == 0 then |list.tasks| - 1 else i - 1
          case None => |list.tasks| - 1;
        list.Select(Some(i));
      }
    }

    method NextList()
      requires Valid()
      modifies this
      ensures Valid()
      ensures taskLists == old(taskLists) && state == old(state) && detailScroll == old(detailScroll)
      ensures activeList == NextIndex(old(activeList), |taskLists|)
    {
      activeList := (activeList + 1) % |taskLists|;
    }

    method PrevList()
      requires Valid()
      modifies this
      ensures Valid()
      ensures taskLists == old(taskLists) && state == old(state) && detailScroll == old(detailScroll)
      ensures activeList == PrevIndex(old(activeList), |taskLists|)
    {
      if activeList == 0 {
        activeList := |taskLists| - 1;
      } else {
        activeList := activeList - 1;
      }
    }

    /** Total number of tasks on the board. */
    ghost function TotalTasks(): nat
      reads this, taskLists
    {
      Sum(Sizes())
    }

    /**
     * `move_task_to_next_list`: unless the last column is active or nothing is selected,
     * the selected task leaves the active column (whose selection is repaired), is
     * appended to the next column and selected there, and that column becomes active.
     */
    method MoveTaskToNextList()
      requires Valid()
      requires activeList != |taskLists| - 1 ==>
        SelectionUsable(taskLists[activeList].selected, |taskLists[activeList].tasks|)
      modifies this, taskLists
      ensures Valid()
      ensures taskLists == old(taskLists) && state == old(state) && detailScroll == old(detailScroll)
      ensures forall j :: 0 <= j < |taskLists| ==>
        taskLists[j].name == old(taskLists[j].name) && taskLists[j].colorIndex == old(taskLists[j].colorIndex)
      ensures TotalTasks() == old(TotalTasks())
      ensures var a := old(activeList);
        if a == |taskLists| - 1 || old(taskLists[a].selected).None? then
          && activeList == a
          && forall j :: 0 <= j < |taskLists| ==>
               taskLists[j].tasks == old(taskLists[j].tasks) && taskLists[j].selected == old(taskLists[j].selected)
        else
          var i := old(taskLists[a].selected).value;
          && activeList == a + 1
          && taskLists[a].tasks == RemoveAt(old(taskLists[a].tasks), i)
          && taskLists[a].selected == SelectionAfterRemove(i, |taskLists[a].tasks|)
          && taskLists[a + 1].tasks == old(taskLists[a + 1].tasks) + [old(taskLists[a].tasks)[i]]
          && taskLists[a + 1].selected == Some(|taskLists[a + 1].tasks| - 1)
          && forall j :: 0 <= j < |taskLists| && j != a && j != a + 1 ==>
               taskLists[j].tasks == old(taskLists[j].tasks) && taskLists[j].selected == old(taskLists[j].selected)
    {
      ghost var sizes := Sizes();
      if activeList != |taskLists| - 1 {
        var a := activeList;
        MoveSelectedTask(activeList + 1);
        if activeList != a {
          TransferKeepsSum(sizes, Sizes(), a, a + 1);
        } else {
          assert Sizes() == sizes;
        }
      }
    }

    /**
     * `move_task_to_prev_list`: the mirror image, toward the previous column; nothing
     * happens when the first column is active or nothing is selected.
     */
    method MoveTaskToPrevList()
      requires Valid()
      requires activeList != 0 ==>
        SelectionUsable(taskLists[activeList].selected, |taskLists[activeList].tasks|)
      modifies this, taskLists
      ensures Valid()
      ensures taskLists == old(taskLists) && state == old(state) && detailScroll == old(detailScroll)
      ensures forall j :: 0 <= j < |taskLists| ==>
        taskLists[j].name == old(taskLists[j].name) && taskLists[j].colorIndex == old(taskLists[j].colorIndex)
      ensures TotalTasks() == old(TotalTasks())
      ensures var a := old(activeList);
        if a == 0 || old(taskLists[a].selected).None? then
          && activeList == a
          && forall j :: 0 <= j < |taskLists| ==>
               taskLists[j].tasks == old(taskLists[j].tasks) && taskLists[j].selected == old(taskLists[j].selected)
        else
          var i := old(taskLists[a].selected).value;
          && activeList == a - 1
          && taskLists[a].tasks == RemoveAt(old(taskLists[a].tasks), i)
          && taskLists[a].selected == SelectionAfterRemove(i, |taskLists[a].tasks|)
          && taskLists[a - 1].tasks == old(taskLists[a - 1].tasks) + [old(taskLists[a].tasks)[i]]
          && taskLists[a - 1].selected == Some(|taskLists[a - 1].tasks| - 1)
          && forall j :: 0 <= j < |taskLists| && j != a && j != a - 1 ==>
               taskLists[j].tasks == old(taskLists[j].tasks) && taskLists[j].selected == old(taskLists[j].selected)
    {
      ghost var sizes := Sizes();
      if activeList != 0 {
        var a := activeList;
        MoveSelectedTask(activeList - 1);
        if activeList != a {
          TransferKeepsSum(sizes, Sizes(), a, a - 1);
        } else {
          assert Sizes() == sizes;
        }
      }
    }

    /**
     * The body the two moves share: `dest` is the neighbour that `next_list` or
     * `prev_list` makes active.
     */
    method MoveSelectedTask(dest: nat)
      requires Valid()
      requires dest == activeList + 1 || dest + 1 == activeList
      requires dest < |taskLists|
      requires SelectionUsable(taskLists[activeList].selected, |taskLists[activeList].tasks|)
      modifies this, taskLists
      ensures Valid()
      ensures taskLists == old(taskLists) && state == old(state) && detailScroll == old(detailScroll)
      ensures forall j :: 0 <= j < |taskLists| ==>
        taskLists[j].name == old(taskLists[j].name) && taskLists[j].colorIndex == old(taskLists[j].colorIndex)
      ensures var a := old(activeList);
        if old(taskLists[a].selected).None? then
          && activeList == a
          && forall j :: 0 <= j < |taskLists| ==>
               taskLists[j].tasks == old(taskLists[j].tasks) && taskLists[j].selected == old(taskLists[j].selected)
        else
          var i := old(taskLists[a].selected).value;
          && activeList == dest
          && taskLists[a].tasks == RemoveAt(old(taskLists[a].tasks), i)
          && taskLists[a].selected == SelectionAfterRemove(i, |taskLists[a].tasks|)
          && taskLists[dest].tasks == old(taskLists[dest].tasks) + [old(taskLists[a].tasks)[i]]
          && taskLists[dest].selected == Some(|taskLists[dest].tasks| - 1)
          && forall j :: 0 <= j < |taskLists| && j != a && j != dest ==>
               taskLists[j].tasks == old(taskLists[j].tasks) && taskLists[j].selected == old(taskLists[j].selected)
    {
      var list := taskLists[activeList];
      match list.selected {
        case Some(i) =>
          var task := TakeSelected(list, i);
          var src := activeList;
          if dest == activeList + 1 {
            NextList();
          } else {
            PrevList();
          }
          AppendSelected(taskLists[activeList], task);
        case None =>
          return;
      }
    }

    method ChangeState(s: AppState)
      modifies this
      ensures state == s
      ensures taskLists == old(taskLists) && activeList == old(activeList) && detailScroll == old(detailScroll)
    {
      state := s;
    }

    /** The selected task of the active column, if something is selected. */
    function GetSelectedTask(): (t: Option<Task>)
      reads this, taskLists
      requires Valid()
      requires SelectionUsable(taskLists[activeList].selected, |taskLists[activeList].tasks|)
      ensures t.None? <==> taskLists[activeList].selected.None?
      ensures t.Some? ==> t.value in taskLists[activeList].tasks
      ensures t.Some? ==> t.value == taskLists[activeList].tasks[taskLists[activeList].selected.value]
    {
      var list := taskLists[activeList];
      match list.selected
      case Some(i) => Some(list.tasks[i])
      case None => None
    }

    function FocusedListIsEmpty(): (b: bool)
      reads this, taskLists
      requires Valid()
      ensures b <==> |taskLists[activeList].tasks| == 0
    {
      taskLists[activeList].IsEmpty()
    }

    /** Shifts the detail view by `amount` lines, never above the top. */
    method ScrollDetails(amount: int)
      requires Valid()
      requires -32768 <= amount < 32768 && -32768 <= AsI16(detailScroll) + amount < 32768
      modifies this
      ensures Valid()
      ensures detailScroll == ScrolledBy(old(detailScroll), amount)
      ensures taskLists == old(taskLists) && activeList == old(activeList) && state == old(state)
    {
      var newScroll := AsI16(detailScroll) + amount;
      if newScroll < 0 {
        newScroll := 0;
      }
      detailScroll := newScroll;
    }

    method ResetScroll()
      requires Valid()
      modifies this
      ensures Valid()
      ensures detailScroll == 0
      ensures taskLists == old(taskLists) && activeList == old(activeList) && state == old(state)
    {
      detailScroll := 0;
    }

    /** Steps the active column's colour by `amount`, wrapping within 1..7. */
    method CycleListColor(amount: int)
      requires Valid()
      requires 0 <= taskLists[activeList].colorIndex < 256 && -128 <= amount < 128
      requires -128 <= AsI8(taskLists[activeList].colorIndex) + amount < 128
      modifies taskLists[activeList]
      ensures Valid()
      ensures var l := taskLists[activeList];
        && l.colorIndex == CycledColor(old(l.colorIndex), amount)
        && l.tasks == old(l.tasks) && l.selected == old(l.selected) && l.name == old(l.name)
    {
      var list := taskLists[activeList];
      var newColor := AsI8(list.colorIndex) + amount;
      if newColor < 1 {
        newColor := 7;
      } else if newColor > 7 {
        newColor := 1;
      }
      list.colorIndex := newColor;
    }
  }

  /**
   * On a fresh board the first column is active, so Backspace (`move_task_to_prev_list`)
   * changes nothing, although its selection `Some(0)` is stale.
   */
  method PrevOnFreshBoard() returns (app: App)
    ensures fresh(app) && app.Valid()
    ensures app.activeList == 0 && |app.taskLists| == 3
    ensures forall i :: 0 <= i < 3 ==> app.taskLists[i].tasks == [] && app.taskLists[i].selected == Some(0)
  {
    app := new App.New();
    app.MoveTaskToPrevList();
  }
}
