/**
 * Key handling (src/events.rs). Each handler maps the current mode and a key to the
 * ordered list of board operations it performs; `ChangeState` is always the last of
 * them, so saving or deleting happens before the mode is left. Most of these board
 * operations are not defined in src/app.rs and are kept as named calls only.
 */
module Events {
  import opened Application

  /** The key codes the handlers distinguish; every other code is `OtherKey`. */
  datatype Key = Char(c: char) | Backspace | Enter | Esc | Tab | Delete | OtherKey

  /** What the handler learns from the board before deciding. */
  datatype Context = Context(focusedListIsEmpty: bool, listCount: nat)

  /** One call on the board, in the order the handler makes it. */
  datatype Call =
    | SetQuit
    | ClearDetailInputs
    | ResetActiveDetailInput
    | PopulateTaskDetailInputs
    | ClearListInputs
    | PopulateListDetailInputs
    | ListDown
    | ListUp
    | PrevList
    | NextList
    | TaskDown
    | TaskUp
    | ListLeft
    | ListRight
    | JumpToListTop
    | JumpToListBottom
    | CycleListColor(amount: int)
    | MoveTaskToNextList
    | MoveTaskToPrevList
    | MoveTaskToBacklog
    | MoveTaskToArchive
    | MoveTaskToList(dest: nat)
    | ScrollDetails(amount: int)
    | ResetScroll
    | AddToDetailInput(ch: char)
    | DeleteFromDetailInput
    | ClearFocusedInput
    | NextDetailInput
    | SaveDetailsToTask
    | SaveDetailsToList
    | DeleteHighlightedTask
    | DeleteFocusedList
    | ChangeState(to: AppState)

  /** A change of mode, if any, is the last call. */
  predicate StateChangeLast(calls: seq<Call>)
  {
    forall i :: 0 <= i < |calls| - 1 ==> !calls[i].ChangeState?
  }

  /** The mode after the calls: the target of the final `ChangeState`, else unchanged. */
  function StateAfter(s: AppState, calls: seq<Call>): AppState
  {
    if calls != [] && calls[|calls| - 1].ChangeState? then calls[|calls| - 1].to else s
  }

  /** Every mode change in `calls` goes to one of `targets`, and it comes last. */
  predicate ChangesOnlyTo(calls: seq<Call>, targets: set<AppState>)
  {
    StateChangeLast(calls) && forall i :: 0 <= i < |calls| && calls[i].ChangeState? ==> calls[i].to in targets
  }

  /** Keys in the tracker; `state` is the tracker mode itself, which new screens wrap. */
  function HandleTracker(key: Key, ctx: Context, state: AppState): (calls: seq<Call>)
    ensures ChangesOnlyTo(calls, {CreateTask(state), DeleteTask(state), EditTask(state),
      CreateList(state), DeleteList(state), EditList(state), TaskView(state),
      BacklogPopup(state), ArchivePopup(state)})
    ensures ctx.focusedListIsEmpty ==> forall i :: 0 <= i < |calls| && calls[i].ChangeState? ==>
      calls[i].to in {CreateTask(state), CreateList(state), DeleteList(state), EditList(state),
        BacklogPopup(state), ArchivePopup(state)}
    ensures key in {Char('d'), Char('e'), Enter} ==> (calls == [] <==> ctx.focusedListIsEmpty)
    ensures key == Char(' ') ==> calls == [MoveTaskToNextList]
    ensures key == Backspace ==> calls == [MoveTaskToPrevList]
    ensures key == Char('c') ==> calls == [CycleListColor(1)]
    ensures key == Char('C') ==> calls == [CycleListColor(-1)]
  {
    match key
    case Char('q') => [SetQuit]
    case Char('n') => [ClearDetailInputs, ResetActiveDetailInput, ChangeState(CreateTask(state))]
    case Char('d') => if !ctx.focusedListIsEmpty then [ChangeState(DeleteTask(state))] else []
    case Char('e') =>
      if !ctx.focusedListIsEmpty then
        [PopulateTaskDetailInputs, ResetActiveDetailInput, ChangeState(EditTask(state))]
      else []
    case Char('N') => [ClearListInputs, ChangeState(CreateList(state))]
    case Char('D') => [ChangeState(DeleteList(state))]
    case Char('E') => [PopulateListDetailInputs, ChangeState(EditList(state))]
    case Char('j') => [ListDown]
    case Char('k') => [ListUp]
    case Char('h') => [PrevList]
    case Char('l') => [NextList]
    case Char('J') => [TaskDown]
    case Char('K') => [TaskUp]
    case Char('H') => [ListLeft]
    case Char('L') => [ListRight]
    case Char('g') => [JumpToListTop]
    case Char('G') => [JumpToListBottom]
    case Char('c') => [CycleListColor(1)]
    case Char('C') => [CycleListColor(-1)]
    case Char(' ') => [MoveTaskToNextList]
    case Backspace => [MoveTaskToPrevList]
    case Enter => if !ctx.focusedListIsEmpty then [ChangeState(TaskView(state))] else []
    case Char('b') => [ChangeState(BacklogPopup(state))]
    case Char('B') => [MoveTaskToBacklog]
    case Char('a') => [ChangeState(ArchivePopup(state))]
    case Char('A') => [MoveTaskToArchive]
    case _ => []
  }

  /** Keys in the task detail view over `prev`: scrolling, and Enter to close it. */
  function HandleTaskView(key: Key, prev: AppState): (calls: seq<Call>)
    ensures ChangesOnlyTo(calls, {prev})
    ensures |calls| > 0 && calls[|calls| - 1].ChangeState? <==> key == Enter
    ensures key == Enter ==> calls[0] == ResetScroll
    ensures key == Char('j') ==> calls == [ScrollDetails(1)]
    ensures key == Char('k') ==> calls == [ScrollDetails(-1)]
  {
    match key
    case Char('q') => [SetQuit]
    case Char('j') => [ScrollDetails(1)]
    case Char('k') => [ScrollDetails(-1)]
    case Enter => [ResetScroll, ChangeState(prev)]
    case _ => []
  }

  /**
   * Keys in the backlog popup over `prev`: every screen it opens returns to the popup,
   * 'b' closes it and 'a' replaces it by the archive popup over the same `prev`.
   */
  function HandleBacklogPopup(key: Key, ctx: Context, prev: AppState): (calls: seq<Call>)
    ensures var popup := BacklogPopup(prev);
      ChangesOnlyTo(calls, {CreateTask(popup), DeleteTask(popup), EditTask(popup), TaskView(popup),
        prev, ArchivePopup(prev)})
    ensures key in {Char('d'), Char('e'), Enter} ==> (calls == [] <==> ctx.focusedListIsEmpty)
    ensures key == Char('b') ==> calls == [ChangeState(prev)]
    ensures key == Char('a') ==> calls == [ChangeState(ArchivePopup(prev))]
  {
    match key
    case Char('q') => [SetQuit]
    case Char('n') =>
      [ClearDetailInputs, ResetActiveDetailInput, ChangeState(CreateTask(BacklogPopup(prev)))]
    case Char('d') =>
      if !ctx.focusedListIsEmpty then [ChangeState(DeleteTask(BacklogPopup(prev)))] else []
    case Char('e') =>
      if !ctx.focusedListIsEmpty then
        [PopulateTaskDetailInputs, ResetActiveDetailInput, ChangeState(EditTask(BacklogPopup(prev)))]
      else []
    case Char('j') => [ListDown]
    case Char('k') => [ListUp]
    case Char('J') => [TaskDown]
    case Char('K') => [TaskUp]
    case Char('g') => [JumpToListTop]
    case Char('G') => [JumpToListBottom]
    case Char(' ') => [MoveTaskToList(0)]
    case Char('c') => [CycleListColor(1)]
    case Char('C') => [CycleListColor(-1)]
    case Char('b') => [ChangeState(prev)]
    case Char('a') => [ChangeState(ArchivePopup(prev))]
    case Enter =>
      if !ctx.focusedListIsEmpty then [ChangeState(TaskView(BacklogPopup(prev)))] else []
    case _ => []
  }

  /**
   * Keys in the archive popup over `prev`: the mirror image of the backlog popup, with
   * no task creation or editing; Space sends the task to the last column.
   */
  function HandleArchivePopup(key: Key, ctx: Context, prev: AppState): (calls: seq<Call>)
    requires key == Char(' ') ==> ctx.listCount >= 1
    ensures var popup := ArchivePopup(prev);
      ChangesOnlyTo(calls, {DeleteTask(popup), TaskView(popup), prev, BacklogPopup(prev)})
    ensures key == Char(' ') ==> calls == [MoveTaskToList(ctx.listCount - 1)]
    ensures key in {Char('d'), Enter} ==> (calls == [] <==> ctx.focusedListIsEmpty)
    ensures key == Char('a') ==> calls == [ChangeState(prev)]
    ensures key == Char('b') ==> calls == [ChangeState(BacklogPopup(prev))]
  {
    match key
    case Char('q') => [SetQuit]
    case Char('d') =>
      if !ctx.focusedListIsEmpty then [ChangeState(DeleteTask(ArchivePopup(prev)))] else []
    case Char('j') => [ListDown]
    case Char('k') => [ListUp]
    case Char('J') => [TaskDown]
    case Char('K') => [TaskUp]
    case Char('g') => [JumpToListTop]
    case Char('G') => [JumpToListBottom]
    case Char(' ') =>
      var destIndex := ctx.listCount - 1;
      [MoveTaskToList(destIndex)]
    case Char('c') => [CycleListColor(1)]
    case Char('C') => [CycleListColor(-1)]
    case Char('a') => [ChangeState(prev)]
    case Char('b') => [ChangeState(BacklogPopup(prev))]
    case Enter =>
      if !ctx.focusedListIsEmpty then [ChangeState(TaskView(ArchivePopup(prev)))] else []
    case _ => []
  }

  /**
   * Keys in the task editor (editing or creating) over `prev`: every character goes
   * to the focused input, Enter saves then returns, Esc returns without saving.
   */
  function HandleTaskEditor(key: Key, prev: AppState): (calls: seq<Call>)
    ensures ChangesOnlyTo(calls, {prev})
    ensures key.Char? ==> calls == [AddToDetailInput(key.c)]
    ensures SaveDetailsToTask in calls <==> key == Enter
    ensures (|calls| > 0 && calls[|calls| - 1].ChangeState?) <==> key in {Enter, Esc}
    ensures key == Backspace ==> calls == [DeleteFromDetailInput]
    ensures key == Delete ==> calls == [ClearFocusedInput]
    ensures key == Tab ==> calls == [NextDetailInput]
  {
    match key
    case Char(c) => [AddToDetailInput(c)]
    case Backspace => [DeleteFromDetailInput]
    case Delete => [ClearFocusedInput]
    case Tab => [NextDetailInput]
    case Enter => [SaveDetailsToTask, ChangeState(prev)]
    case Esc => [ChangeState(prev)]
    case _ => []
  }

  /** Keys in the list editor (editing or creating) over `prev`; it has no Tab. */
  function HandleListEditor(key: Key, prev: AppState): (calls: seq<Call>)
    ensures ChangesOnlyTo(calls, {prev})
    ensures key.Char? ==> calls == [AddToDetailInput(key.c)]
    ensures SaveDetailsToList in calls <==> key == Enter
    ensures (|calls| > 0 && calls[|calls| - 1].ChangeState?) <==> key in {Enter, Esc}
    ensures key == Backspace ==> calls == [DeleteFromDetailInput]
    ensures key == Delete ==> calls == [ClearFocusedInput]
    ensures key == Tab ==> calls == []
  {
    match key
    case Char(c) => [AddToDetailInput(c)]
    case Backspace => [DeleteFromDetailInput]
    case Delete => [ClearFocusedInput]
    case Enter => [SaveDetailsToList, ChangeState(prev)]
    case Esc => [ChangeState(prev)]
    case _ => []
  }

  /**
   * Keys in a yes/no prompt over `prev` whose confirmation performs `delete`:
   * 'y' and Enter delete and then return, 'n' and Esc only return.
   */
  function HandleDeletePrompt(key: Key, prev: AppState, delete: Call): (calls: seq<Call>)
    requires !delete.ChangeState?
    ensures ChangesOnlyTo(calls, {prev})
    ensures delete in calls <==> key == Char('y') || key == Enter
    ensures key in {Char('y'), Enter, Char('n'), Esc} <==> calls != []
    ensures key in {Char('y'), Enter} ==> calls == [delete, ChangeState(prev)]
    ensures key in {Char('n'), Esc} ==> calls == [ChangeState(prev)]
  {
    match key
    case Char('y') => [delete, ChangeState(prev)]
    case Char('n') => [ChangeState(prev)]
    case Enter => [delete, ChangeState(prev)]
    case Esc => [ChangeState(prev)]
    case _ => []
  }

  /** `handle_events` after the key was read: dispatch on the current mode. */
  function HandleEvents(state: AppState, key: Key, ctx: Context): (calls: seq<Call>)
    requires state.ArchivePopup? && key == Char(' ') ==> ctx.listCount >= 1
    ensures StateChangeLast(calls)
  {
    match state
    case Tracker => HandleTracker(key, ctx, state)
    case TaskView(prev) => HandleTaskView(key, prev)
    case BacklogPopup(prev) => HandleBacklogPopup(key, ctx, prev)
    case ArchivePopup(prev) => HandleArchivePopup(key, ctx, prev)
    case EditTask(prev) => HandleTaskEditor(key, prev)
    case CreateTask(prev) => HandleTaskEditor(key, prev)
    case DeleteTask(prev) => HandleDeletePrompt(key, prev, DeleteHighlightedTask)
    case EditList(prev) => HandleListEditor(key, prev)
    case CreateList(prev) => HandleListEditor(key, prev)
    case DeleteList(prev) => HandleDeletePrompt(key, prev, DeleteFocusedList)
  }

  /** The mode after one key press. */
  function Step(state: AppState, key: Key, ctx: Context): AppState
    requires state.ArchivePopup? && key == Char(' ') ==> ctx.listCount >= 1
  {
    StateAfter(state, HandleEvents(state, key, ctx))
  }

  /** A mode is a screen on top of the tracker or on top of one popup. */
  predicate Reachable(s: AppState)
  {
    match s
    case Tracker => true
    case BacklogPopup(p) => p == Tracker
    case ArchivePopup(p) => p == Tracker
    case TaskView(p) => p in {Tracker, BacklogPopup(Tracker), ArchivePopup(Tracker)}
    case DeleteTask(p) => p in {Tracker, BacklogPopup(Tracker), ArchivePopup(Tracker)}
    case EditTask(p) => p in {Tracker, BacklogPopup(Tracker)}
    case CreateTask(p) => p in {Tracker, BacklogPopup(Tracker)}
    case EditList(p) => p == Tracker
    case CreateList(p) => p == Tracker
    case DeleteList(p) => p == Tracker
  }

  /** Every reachable mode is at most two screens above the tracker. */
  lemma ReachableDepth(s: AppState)
    requires Reachable(s)
    ensures Depth(s) <= 2
    ensures Depth(s) == 2 ==> s.prev.BacklogPopup? || s.prev.ArchivePopup?
  {
  }

  /** A key press keeps the mode among the reachable ones. */
  lemma StepPreservesReachable(s: AppState, key: Key, ctx: Context)
    requires Reachable(s)
    requires s.ArchivePopup? && key == Char(' ') ==> ctx.listCount >= 1
    ensures Reachable(Step(s, key, ctx))
  {
    var calls := HandleEvents(s, key, ctx);
    if calls != [] && calls[|calls| - 1].ChangeState? {
      assert calls[|calls| - 1].to == Step(s, key, ctx);
    }
  }

  /**
   * One key press moves along the mode stack by at most one screen: the mode stays,
   * a screen is pushed on top of it, the top screen is popped, or the top popup is
   * swapped for the other one over the same screen.
   */
  lemma StepShape(s: AppState, key: Key, ctx: Context)
    requires s.ArchivePopup? && key == Char(' ') ==> ctx.listCount >= 1
    ensures var t := Step(s, key, ctx);
      || t == s
      || (!t.Tracker? && t.prev == s)
      || (!s.Tracker? && s.prev == t)
      || (s.BacklogPopup? && t == ArchivePopup(s.prev))
      || (s.ArchivePopup? && t == BacklogPopup(s.prev))
  {
    var calls := HandleEvents(s, key, ctx);
    if calls != [] && calls[|calls| - 1].ChangeState? {
      assert calls[|calls| - 1].to == Step(s, key, ctx);
    }
  }

  /** Hence the depth of the mode stack changes by at most one per key. */
  lemma StepDepth(s: AppState, key: Key, ctx: Context)
    requires s.ArchivePopup? && key == Char(' ') ==> ctx.listCount >= 1
    ensures var d := Depth(Step(s, key, ctx));
      Depth(s) - 1 <= d <= Depth(s) + 1
  {
    StepShape(s, key, ctx);
  }

  /** The modes where 'q' is a command rather than text. */
  predicate CommandMode(s: AppState)
  {
    s.Tracker? || s.TaskView? || s.BacklogPopup? || s.ArchivePopup?
  }

  /** The program is asked to quit exactly on 'q' in a command mode. */
  lemma QuitOnlyOnQ(s: AppState, key: Key, ctx: Context)
    requires s.ArchivePopup? && key == Char(' ') ==> ctx.listCount >= 1
    ensures SetQuit in HandleEvents(s, key, ctx) <==> CommandMode(s) && key == Char('q')
    ensures SetQuit in HandleEvents(s, key, ctx) ==> Step(s, key, ctx) == s
  {
  }

  /** In an editor every character, 'q' included, is typed into the focused input. */
  lemma EditorsTypeCharacters(s: AppState, c: char, ctx: Context)
    requires s.EditTask? || s.CreateTask? || s.EditList? || s.CreateList?
    ensures HandleEvents(s, Char(c), ctx) == [AddToDetailInput(c)]
    ensures Step(s, Char(c), ctx) == s
  {
  }

  /** Only Enter and Esc leave an editor: every other key keeps it open. */
  lemma EditorStays(s: AppState, key: Key, ctx: Context)
    requires s.EditTask? || s.CreateTask? || s.EditList? || s.CreateList?
    requires key !in {Enter, Esc}
    ensures Step(s, key, ctx) == s
  {
  }

  /** Esc leaves an editor or a prompt for the screen below it and does nothing else. */
  lemma EscapeReturns(s: AppState, ctx: Context)
    requires s.EditTask? || s.CreateTask? || s.EditList? || s.CreateList? || s.DeleteTask? || s.DeleteList?
    ensures HandleEvents(s, Esc, ctx) == [ChangeState(s.prev)]
    ensures Step(s, Esc, ctx) == s.prev
  {
  }

  /** Enter confirms an editor or a prompt: its one action runs, then the screen closes. */
  lemma EnterConfirms(s: AppState, ctx: Context)
    requires s.EditTask? || s.CreateTask? || s.EditList? || s.CreateList? || s.DeleteTask? || s.DeleteList?
    ensures var action :=
        if s.EditTask? || s.CreateTask? then SaveDetailsToTask
        else if s.EditList? || s.CreateList? then SaveDetailsToList
        else if s.DeleteTask? then DeleteHighlightedTask
        else DeleteFocusedList;
      HandleEvents(s, Enter, ctx) == [action, ChangeState(s.prev)]
    ensures Step(s, Enter, ctx) == s.prev
  {
  }

  /** On an empty column the tracker opens no screen that needs a highlighted task. */
  lemma EmptyColumnGuards(key: Key, ctx: Context)
    requires ctx.focusedListIsEmpty
    ensures var t := Step(Tracker, key, ctx);
      !t.DeleteTask? && !t.EditTask? && !t.TaskView?
    ensures PopulateTaskDetailInputs !in HandleEvents(Tracker, key, ctx)
    ensures key in {Char('d'), Char('e'), Enter} ==> HandleEvents(Tracker, key, ctx) == [] && Step(Tracker, key, ctx) == Tracker
  {
    var calls := HandleEvents(Tracker, key, ctx);
    if calls != [] && calls[|calls| - 1].ChangeState? {
      assert calls[|calls| - 1].to == Step(Tracker, key, ctx);
    }
  }

  /** Opening a screen from the tracker or a popup and cancelling it returns to where it started. */
  lemma OpenThenCancel(s: AppState, key: Key, ctx: Context)
    requires s.Tracker? || s.BacklogPopup?
    requires key in {Char('n'), Char('d'), Char('e')}
    requires key in {Char('d'), Char('e')} ==> !ctx.focusedListIsEmpty
    ensures Step(s, key, ctx) != s
    ensures Step(Step(s, key, ctx), Esc, ctx) == s
  {
  }

  /** The popups toggle: 'b' opens and closes the backlog, 'a' the archive. */
  lemma PopupRoundTrips(ctx: Context)
    ensures Step(Tracker, Char('b'), ctx) == BacklogPopup(Tracker)
    ensures Step(BacklogPopup(Tracker), Char('b'), ctx) == Tracker
    ensures Step(Tracker, Char('a'), ctx) == ArchivePopup(Tracker)
    ensures Step(ArchivePopup(Tracker), Char('a'), ctx) == Tracker
  {
  }

  /** 'a' and 'b' swap one popup for the other over the same screen, and back. */
  lemma PopupSwap(p: AppState, ctx: Context)
    ensures Step(BacklogPopup(p), Char('a'), ctx) == ArchivePopup(p)
    ensures Step(ArchivePopup(p), Char('b'), ctx) == BacklogPopup(p)
    ensures Step(Step(BacklogPopup(p), Char('a'), ctx), Char('b'), ctx) == BacklogPopup(p)
  {
  }

  /** Enter closes the task detail view after resetting its scroll. */
  lemma TaskViewCloses(p: AppState, ctx: Context)
    ensures HandleEvents(TaskView(p), Enter, ctx) == [ResetScroll, ChangeState(p)]
    ensures Step(TaskView(p), Enter, ctx) == p
  {
  }

  /** The keys that open screens from the tracker, and the screen each opens. */
  lemma TrackerKeys(ctx: Context)
    ensures Step(Tracker, Char('n'), ctx) == CreateTask(Tracker)
    ensures Step(Tracker, Char('N'), ctx) == CreateList(Tracker)
    ensures Step(Tracker, Char('D'), ctx) == DeleteList(Tracker)
    ensures Step(Tracker, Char('E'), ctx) == EditList(Tracker)
    ensures Step(Tracker, Char('b'), ctx) == BacklogPopup(Tracker)
    ensures Step(Tracker, Char('a'), ctx) == ArchivePopup(Tracker)
    ensures !ctx.focusedListIsEmpty ==>
      && Step(Tracker, Char('d'), ctx) == DeleteTask(Tracker)
      && Step(Tracker, Char('e'), ctx) == EditTask(Tracker)
      && Step(Tracker, Enter, ctx) == TaskView(Tracker)
    ensures ctx.focusedListIsEmpty ==>
      && Step(Tracker, Char('d'), ctx) == Tracker
      && Step(Tracker, Char('e'), ctx) == Tracker
      && Step(Tracker, Enter, ctx) == Tracker
  {
  }

  /** Every other key leaves the tracker in the tracker. */
  lemma TrackerOtherKeys(key: Key, ctx: Context)
    requires key !in {Char('n'), Char('N'), Char('D'), Char('E'), Char('b'), Char('a'), Char('d'), Char('e'), Enter}
    ensures Step(Tracker, key, ctx) == Tracker
  {
  }

  /** The keys that open or leave screens in the backlog popup over `p`. */
  lemma BacklogKeys(p: AppState, ctx: Context)
    ensures Step(BacklogPopup(p), Char('n'), ctx) == CreateTask(BacklogPopup(p))
    ensures Step(BacklogPopup(p), Char('b'), ctx) == p
    ensures Step(BacklogPopup(p), Char('a'), ctx) == ArchivePopup(p)
    ensures !ctx.focusedListIsEmpty ==>
      && Step(BacklogPopup(p), Char('d'), ctx) == DeleteTask(BacklogPopup(p))
      && Step(BacklogPopup(p), Char('e'), ctx) == EditTask(BacklogPopup(p))
      && Step(BacklogPopup(p), Enter, ctx) == TaskView(BacklogPopup(p))
    ensures ctx.focusedListIsEmpty ==>
      && Step(BacklogPopup(p), Char('d'), ctx) == BacklogPopup(p)
      && Step(BacklogPopup(p), Char('e'), ctx) == BacklogPopup(p)
      && Step(BacklogPopup(p), Enter, ctx) == BacklogPopup(p)
  {
  }

  /** Every other key leaves the backlog popup open. */
  lemma BacklogOtherKeys(p: AppState, key: Key, ctx: Context)
    requires key !in {Char('n'), Char('b'), Char('a'), Char('d'), Char('e'), Enter}
    ensures Step(BacklogPopup(p), key, ctx) == BacklogPopup(p)
  {
  }

  /** The keys that open or leave screens in the archive popup over `p`; it creates and edits nothing. */
  lemma ArchiveKeys(p: AppState, ctx: Context)
    ensures Step(ArchivePopup(p), Char('a'), ctx) == p
    ensures Step(ArchivePopup(p), Char('b'), ctx) == BacklogPopup(p)
    ensures !ctx.focusedListIsEmpty ==>
      && Step(ArchivePopup(p), Char('d'), ctx) == DeleteTask(ArchivePopup(p))
      && Step(ArchivePopup(p), Enter, ctx) == TaskView(ArchivePopup(p))
    ensures ctx.focusedListIsEmpty ==>
      && Step(ArchivePopup(p), Char('d'), ctx) == ArchivePopup(p)
      && Step(ArchivePopup(p), Enter, ctx) == ArchivePopup(p)
  {
  }

  /** Every other key, 'n' and 'e' included, leaves the archive popup open. */
  lemma ArchiveOtherKeys(p: AppState, key: Key, ctx: Context)
    requires key !in {Char('a'), Char('b'), Char('d'), Enter}
    requires key == Char(' ') ==> ctx.listCount >= 1
    ensures Step(ArchivePopup(p), key, ctx) == ArchivePopup(p)
  {
  }
}
