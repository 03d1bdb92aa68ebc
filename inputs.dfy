/**
 * The editable text field behind every form (`Input` in src/inputs.rs): a string and a
 * caret `pos` that always satisfies `0 <= pos <= |text|`. Strings are taken to be ASCII,
 * so Rust's byte offsets coincide with character indices.
 */
module Inputs {
  import opened Options
  import opened Seqs

  /** `str::find(' ')`: the first space in `t`, if any. */
  function Find(t: string): (r: Option<nat>)
    ensures r.Some? ==> r.value < |t| && t[r.value] == ' '
    ensures r.Some? ==> forall k :: 0 <= k < r.value ==> t[k] != ' '
    ensures r.None? ==> forall k :: 0 <= k < |t| ==> t[k] != ' '
  {
    if t == [] then None
    else if t[0] == ' ' then Some(0)
    else match Find(t[1..])
      case None => None
      case Some(i) => Some(i + 1)
  }

  /** `str::rfind(' ')`: the last space in `t`, if any. */
  function RFind(t: string): (r: Option<nat>)
    ensures r.Some? ==> r.value < |t| && t[r.value] == ' '
    ensures r.Some? ==> forall k :: r.value < k < |t| ==> t[k] != ' '
    ensures r.None? ==> forall k :: 0 <= k < |t| ==> t[k] != ' '
  {
    if t == [] then None
    else if t[|t| - 1] == ' ' then Some(|t| - 1)
    else RFind(t[..|t| - 1])
  }

  /**
   * Where `move_to_prev_space` puts the caret: the last space strictly before `pos`,
   * or 0 when there is none. It never moves right.
   */
  function PrevSpace(s: string, pos: nat): (p: nat)
    requires pos <= |s|
    ensures p <= pos
    ensures (p < pos && s[p] == ' ') || (p == 0 && forall k :: 0 <= k < pos ==> s[k] != ' ')
    ensures forall k :: p < k < pos ==> s[k] != ' '
  {
    match RFind(s[..pos])
    case Some(i) => i
    case None => 0
  }

  /**
   * Where `move_to_next_space` puts the caret: the first space after `pos` (searching
   * from `min(pos + 1, |s|)`), or `|s|` when there is none. It never moves left, and it
   * moves right whenever the caret is not already at the end.
   */
  function NextSpace(s: string, pos: nat): (q: nat)
    requires pos <= |s|
    ensures pos <= q <= |s|
    ensures pos < |s| ==> pos < q
    ensures q < |s| ==> s[q] == ' '
    ensures forall k :: pos < k < q ==> s[k] != ' '
  {
    var start := if pos + 1 < |s| then pos + 1 else |s|;
    match Find(s[start..])
    case Some(i) => pos + 1 + i
    case None => |s|
  }

  /** The length of the longest all-space suffix of `s`. */
  function TrailingSpaces(s: string): (n: nat)
    ensures n <= |s|
    ensures forall k :: |s| - n <= k < |s| ==> s[k] == ' '
    ensures n < |s| ==> s[|s| - n - 1] != ' '
  {
    if |s| > 0 && s[|s| - 1] == ' ' then TrailingSpaces(s[..|s| - 1]) + 1 else 0
  }

  class Input {
    var name: string
    var text: string
    var pos: nat

    ghost predicate Valid()
      reads this
    {
      pos <= |text|
    }

    constructor New()
      ensures Valid()
      ensures name == "" && text == "" && pos == 0
    {
      name, text, pos := "", "", 0;
    }

    /** A field pre-filled with `t`, caret at the end. */
    constructor From(t: string)
      ensures Valid()
      ensures name == "" && text == t && pos == |t|
    {
      name, text, pos := "", t, |t|;
    }

    /** The `name(..)` builder. */
    method WithName(n: string)
      modifies this
      ensures name == n && text == old(text) && pos == old(pos)
    {
      name := n;
    }

    function Len(): (n: nat)
      reads this
      ensures n == |text|
      ensures Valid() ==> pos <= n
    {
      |text|
    }

    /** The one-character suffix of the text, or "" when the text is empty. */
    function Last(): (r: string)
      reads this
      ensures |r| == if |text| > 0 then 1 else 0
      ensures text == text[..|text| - |r|] + r
    {
      if Len() > 0 then text[Len() - 1..] else ""
    }

    /** Counts the trailing spaces by popping them off a copy of the text. */
    method NumTrailingSpaces() returns (n: nat)
      ensures n == TrailingSpaces(text)
    {
      var t := text;
      n := 0;
      while |t| > 0 && t[|t| - 1] == ' '
        invariant |t| + n == |text| && t == text[..|t|]
        invariant TrailingSpaces(text) == TrailingSpaces(t) + n
      {
        n := n + 1;
        t := t[..|t| - 1];
      }
    }

    /** Inserts `c` at the caret, except that a space is refused at position 0. */
    method Push(c: char)
      requires Valid()
      modifies this
      ensures Valid() && name == old(name)
      ensures old(pos) == 0 && c == ' ' ==> text == old(text) && pos == old(pos)
      ensures !(old(pos) == 0 && c == ' ') ==>
        text == InsertAt(old(text), old(pos), c) && pos == old(pos) + 1
    {
      if pos == 0 && c == ' ' {
        return;
      }
      text := InsertAt(text, pos, c);
      pos := pos + 1;
    }

    /** Deletes the character just before the caret; nothing happens at position 0. */
    method Pop()
      requires Valid()
      modifies this
      ensures Valid() && name == old(name)
      ensures old(pos) == 0 ==> text == old(text) && pos == 0
      ensures old(pos) > 0 ==> text == RemoveAt(old(text), old(pos) - 1) && pos == old(pos) - 1
    {
      if pos > 0 {
        pos := pos - 1;
        text := RemoveAt(text, pos);
      }
    }

    /** Destructive read: returns the text and leaves the field empty. */
    method Extract() returns (s: string)
      modifies this
      ensures s == old(text)
      ensures Valid() && text == "" && pos == 0 && name == old(name)
    {
      pos := 0;
      s := text;
      text := "";
    }

    method Clear()
      modifies this
      ensures Valid() && text == "" && pos == 0 && name == old(name)
    {
      pos := 0;
      text := "";
    }

    method MoveLeft()
      requires Valid()
      modifies this
      ensures Valid() && text == old(text) && name == old(name)
      ensures pos == if old(pos) > 0 then old(pos) - 1 else 0
    {
      if pos > 0 {
        pos := pos - 1;
      }
    }

    method MoveRight()
      requires Valid()
      modifies this
      ensures Valid() && text == old(text) && name == old(name)
      ensures pos == if old(pos) < |text| then old(pos) + 1 else |text|
    {
      if pos < Len() {
        pos := pos + 1;
      }
    }

    method MoveStart()
      requires Valid()
      modifies this
      ensures Valid() && text == old(text) && name == old(name)
      ensures pos == 0
    {
      pos := 0;
    }

    method MoveEnd()
      requires Valid()
      modifies this
      ensures Valid() && text == old(text) && name == old(name)
      ensures pos == |text|
    {
      pos := Len();
    }

    method MoveToPrevSpace()
      requires Valid()
      modifies this
      ensures Valid() && text == old(text) && name == old(name)
      ensures pos == PrevSpace(text, old(pos))
    {
      var index := RFind(text[..pos]);
      match index
      case Some(i) => pos := i;
      case None => pos := 0;
    }

    method MoveToNextSpace()
      requires Valid()
      modifies this
      ensures Valid() && text == old(text) && name == old(name)
      ensures pos == NextSpace(text, old(pos))
    {
      var start := if pos + 1 < Len() then pos + 1 else Len();
      var index := Find(text[start..]);
      match index
      case Some(i) => pos := pos + 1 + i;
      case None => pos := Len();
    }

    /**
     * Deletes the previous word: the span from the previous space (as
     * `move_to_prev_space` finds it) up to the caret, which ends up at that space.
     */
    method DeleteToLeftSpace()
      requires Valid()
      modifies this
      ensures Valid() && name == old(name)
      ensures pos == PrevSpace(old(text), old(pos))
      ensures text == old(text)[..pos] + old(text)[old(pos)..]
      ensures |text| == |old(text)| - (old(pos) - pos)
    {
      var prevPos := pos;
      MoveToPrevSpace();
      var currPos := pos;
      text := text[..currPos] + text[prevPos..];
    }
  }

  /** An accepted `push(c)` followed by `pop` restores both the text and the caret. */
  method PushThenPop(input: Input, c: char)
    requires input.Valid()
    requires input.pos > 0 || c != ' '
    modifies input
    ensures input.Valid()
    ensures input.text == old(input.text) && input.pos == old(input.pos)
  {
    input.Push(c);
    input.Pop();
    RemoveAfterInsert(old(input.text), old(input.pos), c);
  }

  /**
   * Deleting the previous word twice from "hello world" (caret at the end) leaves
   * the field empty: the first call removes " world", the second "hello".
   */
  method DeleteTwoWords() returns (rest: string, caret: nat)
    ensures rest == "" && caret == 0
  {
    var input := new Input.From("hello world");
    input.DeleteToLeftSpace();
    assert input.text == "hello" by {
      assert "hello world"[5] == ' ';
    }
    input.DeleteToLeftSpace();
    rest, caret := input.text, input.pos;
  }
}
