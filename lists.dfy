/**
 * Tasks and the selectable collections that hold them (src/task_list.rs and
 * src/lists.rs, which declare the same `Task` and `TaskList`; one type covers both).
 * The `ListState` widget state of a list is reduced to its one observable part, the
 * optional selected index.
 */
module Lists {
  import opened Options
  import opened Seqs

  /** A task: a required summary and an optional description and category. */
  datatype Task = Task(summary: string, description: Option<string>, category: Option<string>)

  /**
   * The selection invariant a list ought to keep: nothing is selected exactly when the
   * list is empty, and a selection is a valid index. The list code itself does not
   * enforce it; callers repair the selection after structural changes.
   */
  predicate SelectionValid(selected: Option<nat>, len: nat)
  {
    (selected.None? <==> len == 0) && (selected.Some? ==> selected.value < len)
  }

  class TaskList {
    var name: string
    var colorIndex: int
    var selected: Option<nat>
    var tasks: seq<Task>

    constructor Default()
      ensures name == "Tasks" && colorIndex == 7 && selected == None && tasks == []
    {
      name, colorIndex, selected, tasks := "Tasks", 7, None, [];
    }

    constructor From(name: string)
      ensures this.name == name && colorIndex == 7 && selected == None && tasks == []
    {
      this.name, colorIndex, selected, tasks := name, 7, None, [];
    }

    constructor EmptyBacklog()
      ensures name == "Backlog" && colorIndex == 6 && selected == None && tasks == []
    {
      name, colorIndex, selected, tasks := "Backlog", 6, None, [];
    }

    constructor EmptyArchive()
      ensures name == "Archive" && colorIndex == 1 && selected == None && tasks == []
    {
      name, colorIndex, selected, tasks := "Archive", 1, None, [];
    }

    function Len(): (n: nat)
      reads this
      ensures n == |tasks|
    {
      |tasks|
    }

    function IsEmpty(): (b: bool)
      reads this
      ensures b <==> Len() == 0
    {
      tasks == []
    }

    /** Stores the selection verbatim; keeping it meaningful is the caller's job. */
    method Select(index: Option<nat>)
      modifies this
      ensures selected == index
      ensures name == old(name) && colorIndex == old(colorIndex) && tasks == old(tasks)
    {
      selected := index;
    }

    function GetSelectedIndex(): (r: Option<nat>)
      reads this
      ensures r == selected
    {
      selected
    }

    /** Exchanges two tasks; a permutation that leaves the selection where it was. */
    method Swap(i1: nat, i2: nat)
      requires i1 < |tasks| && i2 < |tasks|
      modifies this
      ensures tasks == Swapped(old(tasks), i1, i2)
      ensures multiset(tasks) == multiset(old(tasks))
      ensures name == old(name) && colorIndex == old(colorIndex) && selected == old(selected)
    {
      tasks := Swapped(tasks, i1, i2);
      SwapPermutes(old(tasks), i1, i2);
    }

    /** Takes out task `i`; the others keep their order and the selection is not touched. */
    method Remove(i: nat) returns (task: Task)
      requires i < |tasks|
      modifies this
      ensures task == old(tasks)[i]
      ensures tasks == RemoveAt(old(tasks), i)
      ensures name == old(name) && colorIndex == old(colorIndex) && selected == old(selected)
    {
      task := tasks[i];
      tasks := RemoveAt(tasks, i);
    }

    method Push(task: Task)
      modifies this
      ensures tasks == old(tasks) + [task]
      ensures name == old(name) && colorIndex == old(colorIndex) && selected == old(selected)
    {
      tasks := tasks + [task];
    }

    method Insert(i: nat, task: Task)
      requires i <= |tasks|
      modifies this
      ensures tasks == InsertAt(old(tasks), i, task)
      ensures name == old(name) && colorIndex == old(colorIndex) && selected == old(selected)
    {
      tasks := InsertAt(tasks, i, task);
    }
  }

  /** The project picker: directory names and a selection. */
  class ProjectList {
    var selected: Option<nat>
    var projects: seq<string>

    /**
     * `ProjectList::create` after the directory listing succeeded: `projects` is that
     * listing, and the first entry is selected when there is one.
     */
    constructor Create(projects: seq<string>)
      ensures this.projects == projects
      ensures SelectionValid(selected, |projects|)
      ensures selected.Some? ==> selected.value == 0
    {
      this.projects := projects;
      selected := None;
      new;
      if projects != [] {
        selected := Some(0);
      }
    }

    function Len(): (n: nat)
      reads this
      ensures n == |projects|
    {
      |projects|
    }

    function IsEmpty(): (b: bool)
      reads this
      ensures b <==> Len() == 0
    {
      projects == []
    }

    method Select(index: Option<nat>)
      modifies this
      ensures selected == index && projects == old(projects)
    {
      selected := index;
    }

    function GetSelectedIndex(): (r: Option<nat>)
      reads this
      ensures r == selected
    {
      selected
    }

    method Remove(i: nat) returns (project: string)
      requires i < |projects|
      modifies this
      ensures project == old(projects)[i]
      ensures projects == RemoveAt(old(projects), i) && selected == old(selected)
    {
      project := projects[i];
      projects := RemoveAt(projects, i);
    }

    method Push(project: string)
      modifies this
      ensures projects == old(projects) + [project] && selected == old(selected)
    {
      projects := projects + [project];
    }

    method Insert(i: nat, project: string)
      requires i <= |projects|
      modifies this
      ensures projects == InsertAt(old(projects), i, project) && selected == old(selected)
    {
      projects := InsertAt(projects, i, project);
    }
  }

  /** Inserting a task and then removing it at the same index restores the list. */
  method InsertThenRemove(list: TaskList, i: nat, task: Task) returns (removed: Task)
    requires i <= |list.tasks|
    modifies list
    ensures removed == task
    ensures list.tasks == old(list.tasks) && list.selected == old(list.selected)
  {
    list.Insert(i, task);
    removed := list.Remove(i);
    RemoveAfterInsert(old(list.tasks), i, task);
  }

  /** Swapping the same pair twice restores the list. */
  method SwapTwice(list: TaskList, i: nat, j: nat)
    requires i < |list.tasks| && j < |list.tasks|
    modifies list
    ensures list.tasks == old(list.tasks) && list.selected == old(list.selected)
  {
    list.Swap(i, j);
    list.Swap(i, j);
    SwapInvolutive(old(list.tasks), i, j);
  }
}
