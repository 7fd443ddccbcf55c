/**
 * The line editing done by `UART_gets`: keystrokes arrive one at a time;
 * carriage return or line feed ends the line, backspace or delete erases the
 * last character, anything else is stored and echoed while the line has
 * fewer than 19 characters. The editor is modelled on values here (the
 * caller's buffer as a sequence); the method in module Uart runs it over a
 * real array and is proved against `Run` and `Finish`.
 */
module LineEditing {
  import opened Numeric
  import opened Ansi
  import Terminal

  const CR: char := 13 as char
  const LF: char := 10 as char
  const DEL: char := 127 as char

  /** The longest line `UART_gets` stores; the terminating NUL makes 20 bytes. */
  const MAX_LINE: nat := 19

  /** The echo of an erase: back up, overwrite with a blank, back up. */
  const RUBOUT: seq<char> := [BS, ' ', BS]

  predicate IsLineEnd(c: char) {
    c == CR || c == LF
  }

  predicate IsErase(c: char) {
    c == BS || c == DEL
  }

  predicate IsPrintable(c: char) {
    ' ' <= c <= '~'
  }

  predicate NoLineEnd(keys: seq<char>) {
    forall i :: 0 <= i < |keys| ==> !IsLineEnd(keys[i])
  }

  // ---------------------------------------------------------------------------
  // The line as the user means it
  // ---------------------------------------------------------------------------

  /** One keystroke's effect on the line: erase drops the last character, any other is appended while there is room. */
  function Edit(line: seq<char>, c: char): seq<char>
  {
    if IsErase(c) then (if line == [] then [] else line[..|line| - 1])
    else if |line| < MAX_LINE then line + [c]
    else line
  }

  /** The line after the keystrokes `keys`, typed after `line`. */
  function EditAll(line: seq<char>, keys: seq<char>): seq<char>
    decreases |keys|
  {
    if keys == [] then line else Edit(EditAll(line, keys[..|keys| - 1]), keys[|keys| - 1])
  }

  // ---------------------------------------------------------------------------
  // The editor's state: the caller's buffer, the index `i`, and the bytes sent
  // ---------------------------------------------------------------------------

  datatype Editor = Editor(buf: seq<char>, len: nat, echo: seq<char>)

  predicate Valid(e: Editor) {
    e.len <= MAX_LINE < |e.buf|
  }

  /** Before the first keystroke: the cursor is saved and the rest of the terminal line erased. */
  function Start(buf: seq<char>): (e: Editor)
    requires |buf| > MAX_LINE
    ensures Valid(e) && e.buf == buf && e.buf[..e.len] == []
    ensures e.echo == SAVE_CURSOR + ERASE_TO_END_OF_LINE
  {
    Editor(buf, 0, SAVE_CURSOR + ERASE_TO_END_OF_LINE)
  }

  /** One keystroke other than a line end. */
  function Feed(e: Editor, c: char): (r: Editor)
    requires Valid(e) && !IsLineEnd(c)
    ensures Valid(r) && |r.buf| == |e.buf|
    ensures r.buf[..r.len] == Edit(e.buf[..e.len], c)
    ensures r.buf[MAX_LINE..] == e.buf[MAX_LINE..]
    ensures |e.echo| <= |r.echo| && r.echo[..|e.echo|] == e.echo
  {
    if IsErase(c) then
      if e.len > 0 then Editor(e.buf[e.len - 1 := NUL], e.len - 1, e.echo + RUBOUT)
      else e.(echo := e.echo + RESTORE_CURSOR)
    else if e.len < MAX_LINE then Editor(e.buf[e.len := c], e.len + 1, e.echo + [c])
    else e
  }

  /** The keystrokes `keys`, in order. */
  function Run(e: Editor, keys: seq<char>): (r: Editor)
    requires Valid(e) && NoLineEnd(keys)
    ensures Valid(r) && |r.buf| == |e.buf|
    ensures r.buf[..r.len] == EditAll(e.buf[..e.len], keys)
    ensures r.buf[MAX_LINE..] == e.buf[MAX_LINE..]
    ensures |e.echo| <= |r.echo| && r.echo[..|e.echo|] == e.echo
    decreases |keys|
  {
    if keys == [] then e else Feed(Run(e, keys[..|keys| - 1]), keys[|keys| - 1])
  }

  /** The line end: the string is terminated at the index. */
  function Finish(e: Editor): (buf: seq<char>)
    requires Valid(e)
    ensures |buf| == |e.buf| && buf[..e.len] == e.buf[..e.len] && buf[e.len] == NUL
    ensures buf[MAX_LINE + 1..] == e.buf[MAX_LINE + 1..]
  {
    e.buf[e.len := NUL]
  }

  /** Index of the first line end in `s`. */
  function FirstLineEnd(s: seq<char>): (n: nat)
    requires !NoLineEnd(s)
    ensures n < |s| && IsLineEnd(s[n]) && NoLineEnd(s[..n])
  {
    if IsLineEnd(s[0]) then 0
    else
      assert !NoLineEnd(s[1..]) by {
        var i :| 0 <= i < |s| && IsLineEnd(s[i]);
        assert s[1..][i - 1] == s[i];
      }
      var n := FirstLineEnd(s[1..]);
      assert s[..n + 1] == [s[0]] + s[1..][..n];
      n + 1
  }

  // ---------------------------------------------------------------------------
  // What the line holds
  // ---------------------------------------------------------------------------

  /**
   * The complete result of one call on the buffer `buf` with the keystrokes
   * `keys` before the line end: the string stored is the edited line,
   * NUL-terminated, and nothing past the 20th byte of the buffer is written.
   */
  lemma GetsStoresLine(buf: seq<char>, keys: seq<char>)
    requires |buf| > MAX_LINE && NoLineEnd(keys)
    ensures var line := EditAll([], keys);
      var out := Finish(Run(Start(buf), keys));
      && |line| <= MAX_LINE
      && out[..|line|] == line && out[|line|] == NUL
      && out[MAX_LINE + 1..] == buf[MAX_LINE + 1..]
  {
    var e := Run(Start(buf), keys);
    assert Start(buf).buf[..0] == [];
  }

  /** At 19 characters any keystroke but an erase is dropped: nothing is stored and nothing echoed. */
  lemma FullLineDropsKeystroke(e: Editor, c: char)
    requires Valid(e) && e.len == MAX_LINE && !IsLineEnd(c) && !IsErase(c)
    ensures Feed(e, c) == e
  {
  }

  /**
   * An erase on a non-empty line shortens it by one, clears the freed byte
   * and echoes backspace, blank, backspace; on an empty line it changes
   * nothing but sends restore cursor.
   */
  lemma EraseKeystroke(e: Editor, c: char)
    requires Valid(e) && IsErase(c)
    ensures var r := Feed(e, c);
      && (e.len > 0 ==> r.len == e.len - 1 && r.buf == e.buf[e.len - 1 := NUL] && r.echo == e.echo + RUBOUT)
      && (e.len == 0 ==> r.buf == e.buf && r.len == 0 && r.echo == e.echo + RESTORE_CURSOR)
  {
  }

  /** Below 19 characters any other keystroke is stored at the index, which advances, and is echoed as itself. */
  lemma StoreKeystroke(e: Editor, c: char)
    requires Valid(e) && e.len < MAX_LINE && !IsLineEnd(c) && !IsErase(c)
    ensures Feed(e, c) == Editor(e.buf[e.len := c], e.len + 1, e.echo + [c])
  {
  }

  /** The line never exceeds 19 characters and holds only keystrokes that are not erases. */
  lemma {:induction false} EditAllBounded(keys: seq<char>)
    ensures |EditAll([], keys)| <= MAX_LINE
    ensures forall k :: 0 <= k < |EditAll([], keys)| ==> EditAll([], keys)[k] in keys && !IsErase(EditAll([], keys)[k])
    decreases |keys|
  {
    if keys != [] {
      var pre := keys[..|keys| - 1];
      EditAllBounded(pre);
      var l := EditAll([], pre);
      assert forall k :: 0 <= k < |l| ==> l[k] in keys by {
        forall k | 0 <= k < |l| ensures l[k] in keys {
          var j :| 0 <= j < |pre| && pre[j] == l[k];
          assert keys[j] == pre[j];
        }
      }
    }
  }

  /** Without erases the line is the keystrokes cut to 19 characters; the rest are dropped. */
  lemma {:induction false} EditAllTruncates(keys: seq<char>)
    requires forall k :: 0 <= k < |keys| ==> !IsErase(keys[k])
    ensures EditAll([], keys) == keys[..if |keys| < MAX_LINE then |keys| else MAX_LINE]
    decreases |keys|
  {
    if keys != [] {
      var pre := keys[..|keys| - 1];
      EditAllTruncates(pre);
      if |pre| < MAX_LINE {
        assert pre + [keys[|keys| - 1]] == keys;
      } else {
        assert pre[..MAX_LINE] == keys[..MAX_LINE];
      }
    }
  }

  /** Typing a character and erasing it leaves the line as it was, when there was room for it. */
  lemma TypeThenErase(keys: seq<char>, c: char, erase: char)
    requires !IsErase(c) && IsErase(erase) && |EditAll([], keys)| < MAX_LINE
    ensures EditAll([], keys + [c, erase]) == EditAll([], keys)
  {
    var l := EditAll([], keys);
    assert (keys + [c, erase])[..|keys| + 1] == keys + [c];
    assert (keys + [c])[..|keys|] == keys;
    assert (l + [c])[..|l|] == l;
  }

  lemma EditExamples()
    ensures EditAll([], "ab" + [BS] + "c") == "ac"
    ensures EditAll([], [DEL] + "x") == "x"
    ensures EditAll([], "abc" + [BS, BS, BS, BS]) == []
  {
    var k1 := "ab" + [BS] + "c";
    assert k1[..3] == "ab" + [BS] && k1[..3][..2] == "ab" && "ab"[..1] == "a" && "a"[..0] == [];
    var k2 := [DEL] + "x";
    assert k2[..1] == [DEL] && [DEL][..0] == [];
    var k3 := "abc" + [BS, BS, BS, BS];
    assert k3[..6] == "abc" + [BS, BS, BS] && k3[..5] == "abc" + [BS, BS] && k3[..4] == "abc" + [BS];
    assert k3[..3] == "abc" && "abc"[..2] == "ab";
    assert EditAll([], "abc"[..2]) == "ab";
    assert EditAll([], k3[..4]) == "ab";
    assert k3[..5][..4] == k3[..4] && k3[..6][..5] == k3[..5] && k3[..7] == k3;
    assert "ab"[..1] == "a" && "a"[..0] == [];
    assert EditAll([], k3[..5]) == "a";
    assert EditAll([], k3[..6]) == [];
  }

  // ---------------------------------------------------------------------------
  // What the terminal shows
  // ---------------------------------------------------------------------------

  /** The terminal shows `prefix` then the line, with the cursor saved at the line's start. */
  predicate Echoes(t: Terminal.Screen, prefix: seq<char>, line: seq<char>)
  {
    Terminal.Displays(t, prefix, line) && t.saved == |prefix|
  }

  lemma EchoStart(t0: Terminal.Screen)
    requires t0.mode == Terminal.Ground && t0.cursor <= |t0.line|
    ensures Echoes(Terminal.Show(t0, SAVE_CURSOR + ERASE_TO_END_OF_LINE), t0.line[..t0.cursor], [])
  {
    Terminal.ShowAppend(t0, SAVE_CURSOR, ERASE_TO_END_OF_LINE);
    Terminal.ShowControl(t0, 's');
    Terminal.ShowControl(Terminal.Show(t0, SAVE_CURSOR), 'K');
  }

  lemma EchoPrintable(t: Terminal.Screen, prefix: seq<char>, line: seq<char>, c: char)
    requires Echoes(t, prefix, line) && IsPrintable(c)
    ensures Echoes(Terminal.Show(t, [c]), prefix, line + [c])
  {
    Terminal.ShowOne(t, c);
    var r := Terminal.Put(t, c);
    assert r.line[..r.cursor] == t.line[..t.cursor] + [c];
  }

  lemma EchoRubout(t: Terminal.Screen, prefix: seq<char>, line: seq<char>)
    requires Echoes(t, prefix, line) && line != []
    ensures Echoes(Terminal.Show(t, RUBOUT), prefix, line[..|line| - 1])
  {
    var t1 := t.(cursor := t.cursor - 1);
    Terminal.ShowOne(t, BS);
    assert Terminal.Show(t, [BS]) == t1;
    var t2 := Terminal.Put(t1, ' ');
    Terminal.ShowSnoc(t, [BS], ' ');
    assert [BS] + [' '] == [BS, ' '];
    assert Terminal.Show(t, [BS, ' ']) == t2;
    var t3 := t2.(cursor := t2.cursor - 1);
    Terminal.ShowSnoc(t, [BS, ' '], BS);
    assert [BS, ' '] + [BS] == RUBOUT;
    assert Terminal.Show(t, RUBOUT) == t3;
    assert t3.line[..t3.cursor] == t.line[..t.cursor - 1];
    assert (prefix + line)[..|prefix| + |line| - 1] == prefix + line[..|line| - 1];
  }

  lemma EchoRestore(t: Terminal.Screen, prefix: seq<char>)
    requires Echoes(t, prefix, [])
    ensures Echoes(Terminal.Show(t, RESTORE_CURSOR), prefix, [])
  {
    Terminal.ShowControl(t, 'u');
  }

  lemma EchoFeed(t: Terminal.Screen, prefix: seq<char>, e: Editor, c: char)
    requires Valid(e) && Echoes(t, prefix, e.buf[..e.len])
    requires IsPrintable(c) || IsErase(c)
    ensures var r := Feed(e, c);
      Echoes(Terminal.Show(t, r.echo[|e.echo|..]), prefix, r.buf[..r.len])
  {
    var r := Feed(e, c);
    if IsErase(c) {
      if e.len > 0 {
        assert r.echo[|e.echo|..] == RUBOUT;
        EchoRubout(t, prefix, e.buf[..e.len]);
      } else {
        assert r.echo[|e.echo|..] == RESTORE_CURSOR;
        EchoRestore(t, prefix);
      }
    } else if e.len < MAX_LINE {
      assert r.echo[|e.echo|..] == [c];
      EchoPrintable(t, prefix, e.buf[..e.len], c);
    } else {
      assert r.echo[|e.echo|..] == [];
    }
  }

  /**
   * Whatever the keystrokes (printable characters and erases), after the
   * bytes `UART_gets` has sent, the terminal line shows exactly the text
   * before the cursor when the call began followed by the stored line, the
   * cursor sits right after it and the erased positions are blank.
   */
  lemma {:induction false} EchoShowsLine(t0: Terminal.Screen, buf: seq<char>, keys: seq<char>)
    requires t0.mode == Terminal.Ground && t0.cursor <= |t0.line|
    requires |buf| > MAX_LINE
    requires forall i :: 0 <= i < |keys| ==> IsPrintable(keys[i]) || IsErase(keys[i])
    ensures NoLineEnd(keys)
    ensures var e := Run(Start(buf), keys);
      Echoes(Terminal.Show(t0, e.echo), t0.line[..t0.cursor], e.buf[..e.len])
    decreases |keys|
  {
    if keys == [] {
      EchoStart(t0);
      assert buf[..0] == [];
    } else {
      var pre := keys[..|keys| - 1];
      var c := keys[|keys| - 1];
      EchoShowsLine(t0, buf, pre);
      var e := Run(Start(buf), pre);
      var r := Feed(e, c);
      assert Run(Start(buf), keys) == r;
      assert r.echo == e.echo + r.echo[|e.echo|..];
      Terminal.ShowAppend(t0, e.echo, r.echo[|e.echo|..]);
      EchoFeed(Terminal.Show(t0, e.echo), t0.line[..t0.cursor], e, c);
    }
  }
}
