/**
 * A minimal model of the terminal at the other end of the serial line, used
 * as an independent reading of the bytes the driver sends: one line of text
 * with a cursor and a saved cursor position, interpreting backspace, the
 * ECMA-48 control sequences without parameters that the line editor emits
 * (save cursor 's', restore cursor 'u', erase in line 'K'), and writing every
 * other character at the cursor. Positions past the end of `line` are blank.
 */
module Terminal {
  import opened Ansi

  /** Where the terminal is in reading a control sequence. */
  datatype Mode = Ground | Escape | Control(params: seq<char>)

  datatype Screen = Screen(line: seq<char>, cursor: nat, saved: nat, mode: Mode)

  function Blanks(n: nat): (s: seq<char>)
    ensures |s| == n && forall k :: 0 <= k < n ==> s[k] == ' '
  {
    seq(n, _ => ' ')
  }

  /** Writes `c` at the cursor and advances it; a gap before the cursor fills with blanks. */
  function Put(t: Screen, c: char): (r: Screen)
    ensures r.cursor == t.cursor + 1 && r.saved == t.saved && r.mode == t.mode
    ensures |r.line| == if t.cursor < |t.line| then |t.line| else t.cursor + 1
    ensures r.line[t.cursor] == c
    ensures forall k :: 0 <= k < |t.line| && k != t.cursor ==> r.line[k] == t.line[k]
    ensures forall k :: |t.line| <= k < t.cursor ==> r.line[k] == ' '
  {
    if t.cursor < |t.line| then
      t.(line := t.line[t.cursor := c], cursor := t.cursor + 1)
    else
      t.(line := t.line + Blanks(t.cursor - |t.line|) + [c], cursor := t.cursor + 1)
  }

  /** The terminal's reaction to one received character. */
  function Receive(t: Screen, c: char): Screen
  {
    match t.mode
    case Ground =>
      if c == ESC then t.(mode := Escape)
      else if c == BS then t.(cursor := if t.cursor > 0 then t.cursor - 1 else 0)
      else Put(t, c)
    case Escape =>
      if c == '[' then t.(mode := Control([])) else t.(mode := Ground)
    case Control(params) =>
      if IsParameterByte(c) then t.(mode := Control(params + [c]))
      else
        var g := t.(mode := Ground);
        if params != [] then g
        else if c == 's' then g.(saved := t.cursor)
        else if c == 'u' then g.(cursor := t.saved)
        else if c == 'K' then g.(line := if t.cursor < |t.line| then t.line[..t.cursor] else t.line)
        else g
  }

  /** The screen after receiving all of `s`, in order. */
  function Show(t: Screen, s: seq<char>): Screen
    decreases |s|
  {
    if s == [] then t else Receive(Show(t, s[..|s| - 1]), s[|s| - 1])
  }

  /** Receiving `a` then `b` is receiving `a + b`: the terminal keeps no other state. */
  lemma {:induction false} ShowAppend(t: Screen, a: seq<char>, b: seq<char>)
    ensures Show(t, a + b) == Show(Show(t, a), b)
    decreases |b|
  {
    if b == [] {
      assert a + b == a;
    } else {
      var b' := b[..|b| - 1];
      assert (a + b)[..|a + b| - 1] == a + b';
      ShowAppend(t, a, b');
    }
  }

  /** Receiving one more character. */
  lemma ShowSnoc(t: Screen, s: seq<char>, c: char)
    ensures Show(t, s + [c]) == Receive(Show(t, s), c)
  {
    assert (s + [c])[..|s|] == s;
  }

  lemma ShowOne(t: Screen, c: char)
    ensures Show(t, [c]) == Receive(t, c)
  {
    ShowSnoc(t, [], c);
    assert [] + [c] == [c];
  }

  /** A parameterless control sequence received in ground mode. */
  lemma ShowControl(t: Screen, final: char)
    requires t.mode == Ground && !IsParameterByte(final)
    ensures var r := Show(t, ControlSequence([], final));
      && r.mode == Ground
      && r.saved == (if final == 's' then t.cursor else t.saved)
      && r.cursor == (if final == 'u' then t.saved else t.cursor)
      && r.line == (if final == 'K' && t.cursor < |t.line| then t.line[..t.cursor] else t.line)
  {
    ShowOne(t, ESC);
    assert Show(t, [ESC]) == t.(mode := Escape);
    ShowSnoc(t, [ESC], '[');
    assert [ESC] + ['['] == [ESC, '['];
    assert Show(t, [ESC, '[']) == t.(mode := Control([]));
    ShowSnoc(t, [ESC, '['], final);
    assert [ESC, '['] + [final] == ControlSequence([], final);
  }

  /**
   * What the user sees: the text before the cursor is `prefix + text`, the
   * cursor sits right after it, the rest of the line is blank, and the
   * terminal is not in the middle of a control sequence.
   */
  predicate Displays(t: Screen, prefix: seq<char>, text: seq<char>)
  {
    && t.mode == Ground
    && t.cursor == |prefix| + |text| <= |t.line|
    && t.line[..t.cursor] == prefix + text
    && forall k :: t.cursor <= k < |t.line| ==> t.line[k] == ' '
  }
}
