/**
 * The pure computations behind drawing (src/ui.rs): the order in which screens are
 * drawn for a mode, the column constraints of the tracker, the caret placement in
 * the editors over text already wrapped by the layout library, and the truncation
 * of long task fields. Painting itself is not modelled.
 */
module Ui {
  import opened Options
  import opened Application

  /** One layer drawn on the terminal, with the title the source gives it. */
  datatype Overlay =
    | TrackerView
    | TaskData
    | BacklogView
    | ArchiveView
    | TaskEditor(title: string)
    | Prompt(title: string)
    | ListEditor(title: string)

  /** The layer a mode draws on top of whatever lies below it. */
  function OverlayOf(s: AppState): Overlay
  {
    match s
    case Tracker => TrackerView
    case TaskView(_) => TaskData
    case BacklogPopup(_) => BacklogView
    case ArchivePopup(_) => ArchiveView
    case EditTask(_) => TaskEditor("Edit Task Details")
    case CreateTask(_) => TaskEditor("Create New Task")
    case DeleteTask(_) => Prompt("Delete Highlighted Task?")
    case EditList(_) => ListEditor("Edit List Details")
    case CreateList(_) => ListEditor("Create New List")
    case DeleteList(_) => Prompt("Delete Focused List?")
  }

  /** The mode `k` screens below `s`. */
  function Below(s: AppState, k: nat): (r: AppState)
    requires k <= Depth(s)
    ensures Depth(r) == Depth(s) - k
  {
    if k == 0 then s else Below(s.prev, k - 1)
  }

  /**
   * The layers `ui` draws for `state`, first to last: it draws everything below a
   * screen before the screen itself, so layer i is the screen i levels above the
   * tracker, the tracker is drawn once and first, and the current mode last.
   */
  function Layers(state: AppState): (r: seq<Overlay>)
    ensures |r| == Depth(state) + 1
    ensures r[0] == TrackerView && r[|r| - 1] == OverlayOf(state)
    ensures forall i :: 0 <= i < |r| ==> r[i] == OverlayOf(Below(state, Depth(state) - i))
    ensures forall i :: 0 < i < |r| ==> r[i] != TrackerView
  {
    if state.Tracker? then [TrackerView] else Layers(state.prev) + [OverlayOf(state)]
  }

  /** A layout constraint of the terminal library. */
  datatype Constraint = Length(length: nat) | Min(min: nat)

  /**
   * The horizontal constraints of `render_tracker` for `n` columns over `width` cells:
   * one per column, all of the same width except a single flexible one at the middle.
   */
  method TrackerConstraints(width: nat, n: nat) returns (cs: seq<Constraint>)
    requires 1 <= n < 0x1_0000 && width < 0x1_0000
    ensures |cs| == n
    ensures cs[n / 2] == Min(10)
    ensures forall i :: 0 <= i < n && i != n / 2 ==> cs[i] == Length(width / n)
  {
    var listWidth := width / n;
    cs := [];
    var i := 0;
    while i < n / 2
      invariant i <= n / 2 && |cs| == i
      invariant forall j :: 0 <= j < i ==> cs[j] == Length(listWidth)
    {
      cs := cs + [Length(listWidth)];
      i := i + 1;
    }
    cs := cs + [Min(10)];
    var rest;
    if n % 2 == 0 {
      rest := n / 2 - 1;
    } else {
      rest := n / 2;
    }
    i := 0;
    while i < rest
      invariant i <= rest && |cs| == n / 2 + 1 + i
      invariant cs[n / 2] == Min(10)
      invariant forall j :: 0 <= j < |cs| && j != n / 2 ==> cs[j] == Length(listWidth)
    {
      cs := cs + [Length(listWidth)];
      i := i + 1;
    }
  }

  /** How far the caret count moves past one wrapped line: its length, plus the break it ended at. */
  function Advance(line: string, width: nat): nat
  {
    |line| + if |line| < width then 1 else 0
  }

  /** The text position where wrapped line `k` starts, as the caret loop counts it. */
  function Offset(lines: seq<string>, k: nat, width: nat): nat
    requires k <= |lines|
  {
    if k == 0 then 0 else Offset(lines, k - 1, width) + Advance(lines[k - 1], width)
  }

  /**
   * The trailing spaces counted for line `k`: on every line as the source has it,
   * or only on the last line when `lastOnly` holds.
   */
  function Slack(lines: seq<string>, k: nat, trailing: nat, lastOnly: bool): nat
  {
    if !lastOnly || k + 1 == |lines| then trailing else 0
  }

  /** The caret lies beyond wrapped line `k`. */
  predicate Skips(lines: seq<string>, k: nat, pos: nat, trailing: nat, width: nat, lastOnly: bool)
    requires k < |lines|
  {
    |lines[k]| + Offset(lines, k, width) + Slack(lines, k, trailing, lastOnly) < pos
  }

  /** The first line from `k` on that the caret does not lie beyond, or `|lines|`. */
  function StopRow(lines: seq<string>, pos: nat, trailing: nat, width: nat, lastOnly: bool, k: nat): (r: nat)
    requires k <= |lines|
    ensures k <= r <= |lines|
    ensures forall j :: k <= j < r ==> Skips(lines, j, pos, trailing, width, lastOnly)
    ensures r < |lines| ==> !Skips(lines, r, pos, trailing, width, lastOnly)
    decreases |lines| - k
  {
    if k == |lines| || !Skips(lines, k, pos, trailing, width, lastOnly) then k
    else StopRow(lines, pos, trailing, width, lastOnly, k + 1)
  }

  /** Lines the caret lies beyond start no later than the caret. */
  lemma {:induction false} OffsetWithinPos(lines: seq<string>, pos: nat, trailing: nat, width: nat, lastOnly: bool, k: nat)
    requires k <= |lines|
    requires forall j :: 0 <= j < k ==> Skips(lines, j, pos, trailing, width, lastOnly)
    ensures Offset(lines, k, width) <= pos
  {
    if k > 0 {
      assert Skips(lines, k - 1, pos, trailing, width, lastOnly);
    }
  }

  /**
   * The caret's (column, row): the row is the first line the caret does not lie beyond
   * and the column its distance from that line's start; past every line it is column 0.
   */
  function Caret(lines: seq<string>, pos: nat, trailing: nat, width: nat, lastOnly: bool): (r: (nat, nat))
    ensures r.1 <= |lines|
    ensures r.1 < |lines| ==> Offset(lines, r.1, width) + r.0 == pos
    ensures r.1 < |lines| ==> r.0 <= |lines[r.1]| + Slack(lines, r.1, trailing, lastOnly)
    ensures r.1 == |lines| ==> r.0 == 0
  {
    var row := StopRow(lines, pos, trailing, width, lastOnly, 0);
    OffsetWithinPos(lines, pos, trailing, width, lastOnly, row);
    if row < |lines| then (pos - Offset(lines, row, width), row) else (0, row)
  }

  /**
   * The caret loop of the task and list editors over the lines `wrap` produced:
   * lines are skipped while the caret lies beyond them, counting each skipped line's
   * length and its break, and the column is taken on the first line not skipped.
   * `lastOnly` false is the loop as the source writes it.
   */
  method CaretPosition(lines: seq<string>, pos: nat, trailing: nat, width: nat, lastOnly: bool)
    returns (col: nat, row: nat)
    ensures (col, row) == Caret(lines, pos, trailing, width, lastOnly)
  {
    col, row := 0, 0;
    var running := 0;
    var k := 0;
    while k < |lines|
      invariant k <= |lines| && row == k && col == 0
      invariant running == Offset(lines, k, width) && running <= pos
      invariant StopRow(lines, pos, trailing, width, lastOnly, 0) == StopRow(lines, pos, trailing, width, lastOnly, k)
    {
      var line := lines[k];
      var newLen := |line| + running + Slack(lines, k, trailing, lastOnly);
      if newLen < pos {
        running := running + |line|;
        if |line| < width {
          running := running + 1;
        }
        row := row + 1;
      } else {
        col := pos - running;
        return;
      }
      k := k + 1;
    }
  }

  /** With the caret at the start of the text the caret is at the top-left corner. */
  lemma CaretAtStart(lines: seq<string>, trailing: nat, width: nat, lastOnly: bool)
    ensures Caret(lines, 0, trailing, width, lastOnly) == (0, 0)
  {
  }

  /** Both loops agree when the text has no trailing spaces. */
  lemma {:induction false} StopRowWithoutTrailing(lines: seq<string>, pos: nat, width: nat, k: nat)
    requires k <= |lines|
    ensures StopRow(lines, pos, 0, width, false, k) == StopRow(lines, pos, 0, width, true, k)
    decreases |lines| - k
  {
    if k < |lines| {
      assert Skips(lines, k, pos, 0, width, false) == Skips(lines, k, pos, 0, width, true);
      StopRowWithoutTrailing(lines, pos, width, k + 1);
    }
  }

  lemma CaretWithoutTrailing(lines: seq<string>, pos: nat, width: nat)
    ensures Caret(lines, pos, 0, width, false) == Caret(lines, pos, 0, width, true)
  {
    StopRowWithoutTrailing(lines, pos, width, 0);
  }

  /**
   * As written, trailing spaces move a caret that sits on the second line back onto
   * the first: "aaaa bbbb  " wrapped at width 5, caret after the first 'b'.
   */
  lemma TrailingSpacesMisplaceCaret()
    ensures Caret(["aaaa", "bbbb"], 6, 0, 5, false) == (1, 1)
    ensures Caret(["aaaa", "bbbb"], 6, 2, 5, false) == (6, 0)
  {
    var lines := ["aaaa", "bbbb"];
    assert Offset(lines, 1, 5) == 5;
    assert Skips(lines, 0, 6, 0, 5, false);
    assert !Skips(lines, 1, 6, 0, 5, false);
    assert StopRow(lines, 6, 0, 5, false, 1) == 1;
    assert !Skips(lines, 0, 6, 2, 5, false);
  }

  /** The last wrapped line ends at this text position. */
  function WrappedEnd(lines: seq<string>, width: nat): nat
    requires |lines| > 0
  {
    Offset(lines, |lines| - 1, width) + |lines[|lines| - 1]|
  }

  lemma {:induction false} StopRowIgnoresTrailing(lines: seq<string>, pos: nat, trailing: nat, width: nat, k: nat)
    requires k <= |lines| && |lines| > 0
    requires pos <= WrappedEnd(lines, width)
    ensures StopRow(lines, pos, trailing, width, true, k) == StopRow(lines, pos, 0, width, true, k)
    decreases |lines| - k
  {
    if k < |lines| {
      assert Skips(lines, k, pos, trailing, width, true) == Skips(lines, k, pos, 0, width, true);
      StopRowIgnoresTrailing(lines, pos, trailing, width, k + 1);
    }
  }

  /**
   * Counting trailing spaces on the last line only, they matter only once the caret
   * is past the end of the wrapped text: anywhere inside it the caret is the same.
   */
  lemma CorrectedCaretIgnoresTrailing(lines: seq<string>, pos: nat, trailing: nat, width: nat)
    requires |lines| > 0 && pos <= WrappedEnd(lines, width)
    ensures Caret(lines, pos, trailing, width, true) == Caret(lines, pos, 0, width, true)
  {
    StopRowIgnoresTrailing(lines, pos, trailing, width, 0);
  }

  /** The caret of "aaaa bbbb cccc" wrapped at width 5, at the end of the text. */
  method CaretAtEndOfThreeLines() returns (col: nat, row: nat)
    ensures col == 4 && row == 2
  {
    var lines := ["aaaa", "bbbb", "cccc"];
    col, row := CaretPosition(lines, 14, 0, 5, false);
    assert Offset(lines, 2, 5) == 10;
    assert Skips(lines, 0, 14, 0, 5, false) && Skips(lines, 1, 14, 0, 5, false);
    assert !Skips(lines, 2, 14, 0, 5, false);
    assert StopRow(lines, 14, 0, 5, false, 2) == 2;
  }

  /**
   * A field of at least `limit` characters cut to its first `limit - 5` followed by
   * "..."; a shorter one is kept.
   */
  function Truncated(s: string, limit: nat): (r: string)
    requires |s| >= limit ==> limit >= 5
    ensures |r| < limit
    ensures r == s <==> |s| < limit
    ensures |s| >= limit ==> |r| == limit - 2 && r[..limit - 5] == s[..limit - 5] && r[limit - 5..] == "..."
  {
    if |s| >= limit then s[..limit - 5] + "..." else s
  }

  /** The summary as a task card shows it, for a card `width` cells wide. */
  function SummaryText(summary: string, width: nat): (r: string)
    requires width < 0x1_0000
    requires |summary| >= width / 3 * 2 ==> width / 3 * 2 >= 5
    ensures |r| < width / 3 * 2
    ensures r == summary <==> |summary| < width / 3 * 2
  {
    Truncated(summary, width / 3 * 2)
  }

  /** The category as a task card shows it: none, or the category cut to a third of the width. */
  function CategoryText(category: Option<string>, width: nat): (r: Option<string>)
    requires width < 0x1_0000
    requires category.Some? && |category.value| >= width / 3 ==> width / 3 >= 5
    ensures r.Some? <==> category.Some?
    ensures r.Some? ==> |r.value| < width / 3 && (r.value == category.value <==> |category.value| < width / 3)
  {
    match category
    case None => None
    case Some(c) => Some(Truncated(c, width / 3))
  }

  /** The wrapped description lines a card shows: more than three become two and "...". */
  function ShownDescription(lines: seq<string>): (r: seq<string>)
    ensures |r| <= 3
    ensures r == lines <==> |lines| <= 3
    ensures |lines| > 3 ==> |r| == 3 && r[..2] == lines[..2] && r[2] == "..."
  {
    if |lines| > 3 then lines[..2] + ["..."] else lines
  }
}
