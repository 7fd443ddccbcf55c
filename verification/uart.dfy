/**
 * The driver's entry points over four USART ports. The hardware is
 * abstracted to, per port, its register block, the bytes transmitted so far
 * and the bytes the receiver still has to deliver. Waiting for the
 * transmitter is taken to end at once; waiting for the receiver becomes the
 * precondition that a byte (for `Gets`, a line end) is pending. Every entry
 * point ignores a port number above 3.
 */
module Uart {
  import opened Numeric
  import opened Ansi
  import opened LineEditing
  import opened Registers

  const PORTS: nat := 4

  /** A C string: the characters of `s` before the first NUL, or all of them. */
  function CString(s: seq<char>): (p: seq<char>)
    ensures |p| <= |s| && p == s[..|p|] && NUL !in p
    ensures |p| < |s| ==> s[|p|] == NUL
  {
    if s == [] || s[0] == NUL then [] else [s[0]] + CString(s[1..])
  }

  /** The text of a string without NUL is the whole string. */
  lemma {:induction false} CStringWithoutNul(s: seq<char>)
    requires NUL !in s
    ensures CString(s) == s
  {
    if s != [] {
      assert s[0] in s;
      assert s == [s[0]] + s[1..];
      CStringWithoutNul(s[1..]);
    }
  }

  /** A buffer holding `p` then a NUL reads as `p`. */
  lemma {:induction false} CStringOfTerminated(s: seq<char>, p: seq<char>)
    requires |p| < |s| && s[..|p|] == p && s[|p|] == NUL && NUL !in p
    ensures CString(s) == p
  {
    if p != [] {
      assert p[0] in p && s[0] == p[0];
      assert s[1..][..|p| - 1] == p[1..];
      CStringOfTerminated(s[1..], p[1..]);
      assert p == [p[0]] + p[1..];
    }
  }

  /** The per-port output after port `com` sends `s`: nothing for an invalid port. */
  function Sent(tx: seq<seq<char>>, com: Byte, s: seq<char>): (r: seq<seq<char>>)
    requires |tx| == PORTS
    ensures |r| == PORTS
    ensures forall p :: 0 <= p < PORTS && p != com ==> r[p] == tx[p]
    ensures com < PORTS ==> r[com] == tx[com] + s
    ensures com >= PORTS || s == [] ==> r == tx
  {
    if com >= PORTS then tx
    else
      assert s == [] ==> tx[com] + s == tx[com];
      tx[com := tx[com] + s]
  }

  /** Sending `a` then `b` is sending `a + b`. */
  lemma SentTwice(tx: seq<seq<char>>, com: Byte, a: seq<char>, b: seq<char>)
    requires |tx| == PORTS
    ensures Sent(Sent(tx, com, a), com, b) == Sent(tx, com, a + b)
  {
    if com < PORTS {
      assert tx[com] + a + b == tx[com] + (a + b);
    }
  }

  class Uart {
    /** Each port's register block. */
    var regs: seq<RegisterBlock>
    /** Each port's transmitted bytes, oldest first. */
    var tx: seq<seq<char>>
    /** Each port's bytes still to be received, next first. */
    var rx: seq<seq<char>>

    ghost predicate Valid()
      reads this
    {
      |regs| == PORTS && |tx| == PORTS && |rx| == PORTS
    }

    constructor (regs0: seq<RegisterBlock>, pending: seq<seq<char>>)
      requires |regs0| == PORTS && |pending| == PORTS
      ensures Valid() && regs == regs0 && rx == pending && tx == [[], [], [], []]
    {
      regs := regs0;
      rx := pending;
      tx := [[], [], [], []];
    }

    /** `UART_Ini`: the register writes, in the driver's order. */
    method Ini(com: Byte, baud: nat, size: Byte, parity: Byte, stop: Byte)
      requires Valid()
      requires com < PORTS ==> 0 < baud && 16 * baud < WORD32
      modifies this`regs
      ensures Valid()
      ensures com >= PORTS ==> regs == old(regs)
      ensures com < PORTS ==> regs == old(regs)[com := Configured(old(regs)[com], Divisor(baud), size, parity, stop)]
    {
      if com > 3 {
        return;
      }
      var ubrr := Divisor(baud);
      var r := regs[com];
      ghost var r0 := r;
      r := r.(u2x := false);
      r := r.(ubrrl := ubrr % 0x100);
      r := r.(ubrrh := (ubrr / 0x100) % 0x10);
      r := r.(ucsz2 := false);
      r := r.(ucsz1 := false, ucsz0 := false, upm1 := false, upm0 := false, usbs := false);
      var bits := size;
      if bits < 5 || bits > 9 {
        bits := 8;
      }
      if bits == 6 {
        r := r.(ucsz0 := true);
      } else if bits == 7 {
        r := r.(ucsz1 := true);
      } else if bits == 8 {
        r := r.(ucsz1 := true, ucsz0 := true);
      } else if bits == 9 {
        r := r.(ucsz1 := true, ucsz0 := true);
        r := r.(ucsz2 := true);
      }
      assert r == r0.(u2x := false, ubrrl := ubrr % 0x100, ubrrh := (ubrr / 0x100) % 0x10,
        ucsz2 := bits == 9, ucsz1 := bits >= 7, ucsz0 := bits == 6 || bits >= 8,
        upm1 := false, upm0 := false, usbs := false);
      if parity == 1 {
        r := r.(upm1 := true, upm0 := true);
      } else if parity == 2 {
        r := r.(upm1 := true);
      }
      assert r.upm1 == (parity == 1 || parity == 2) && r.upm0 == (parity == 1);
      if stop == 2 {
        r := r.(usbs := true);
      } else {
        r := r.(usbs := false);
      }
      r := r.(rxen := true, txen := true);
      assert r == Configured(r0, ubrr, size, parity, stop);
      regs := regs[com := r];
    }

    /** `UART_available`: whether the port has a received byte waiting. */
    method Available(com: Byte) returns (ready: bool)
      requires Valid()
      ensures ready <==> com < PORTS && rx[com] != []
    {
      if com > 3 {
        return false;
      }
      ready := rx[com] != [];
    }

    /** `UART_getchar`: the next received byte; NUL at once for an invalid port. */
    method GetChar(com: Byte) returns (c: char)
      requires Valid() && (com < PORTS ==> rx[com] != [])
      modifies this`rx
      ensures Valid()
      ensures com >= PORTS ==> c == NUL && rx == old(rx)
      ensures com < PORTS ==> c == old(rx)[com][0] && rx == old(rx)[com := old(rx)[com][1..]]
    {
      if com > 3 {
        return NUL;
      }
      c := rx[com][0];
      rx := rx[com := rx[com][1..]];
    }

    /** `UART_putchar`: one byte out of the port. */
    method PutChar(com: Byte, data: char)
      requires Valid()
      modifies this`tx
      ensures Valid()
      ensures tx == Sent(old(tx), com, [data])
    {
      if com > 3 {
        return;
      }
      tx := tx[com := tx[com] + [data]];
    }

    /** `UART_puts`: the characters of `s` up to its NUL, one `PutChar` each. */
    method Puts(com: Byte, s: seq<char>)
      requires Valid()
      modifies this`tx
      ensures Valid()
      ensures tx == Sent(old(tx), com, CString(s))
    {
      var k := 0;
      while k < |s| && s[k] != NUL
        invariant 0 <= k <= |s| && Valid()
        invariant NUL !in s[..k]
        invariant tx == Sent(old(tx), com, s[..k])
      {
        PutChar(com, s[k]);
        SentTwice(old(tx), com, s[..k], [s[k]]);
        assert s[..k + 1] == s[..k] + [s[k]];
        k := k + 1;
      }
      CStringOfPrefix(s, k);
    }

    /** `UART_clrscr`: erase the page and home the cursor. */
    method ClrScr(com: Byte)
      requires Valid()
      modifies this`tx
      ensures Valid()
      ensures tx == Sent(old(tx), com, CLEAR_SCREEN)
    {
      CStringWithoutNul(CLEAR_SCREEN);
      Puts(com, CLEAR_SCREEN);
    }

    /** `UART_setColor`: select the foreground colour, white for colours past the table. */
    method SetColor(com: Byte, color: Byte)
      requires Valid()
      modifies this`tx
      ensures Valid()
      ensures tx == Sent(old(tx), com, SetColorSequence(color))
    {
      if com > 3 {
        return;
      }
      var index := color;
      if index >= |ANSI_COLORS| as Byte {
        index := 7;
      }
      var buf := new char[8];
      ByteDecimalDigitCount(ANSI_COLORS[index]);
      Itoa(ANSI_COLORS[index], buf, 10);
      SentDecimal(buf[..], ANSI_COLORS[index]);
      ghost var code := Digits(ANSI_COLORS[index], 10);
      CStringWithoutNul(CSI);
      Puts(com, CSI);
      Puts(com, buf[..]);
      SentTwice(old(tx), com, CSI, code);
      PutChar(com, 'm');
      SentTwice(old(tx), com, CSI + code, ['m']);
    }

    /** `UART_gotoxy`: move the cursor to column `x` of row `y`. */
    method GotoXY(com: Byte, x: Byte, y: Byte)
      requires Valid()
      modifies this`tx
      ensures Valid()
      ensures tx == Sent(old(tx), com, GotoSequence(x, y))
    {
      if com > 3 {
        return;
      }
      var buf := new char[8];
      ghost var t0 := tx;
      ghost var dy, dx := Digits(y, 10), Digits(x, 10);
      CStringWithoutNul(CSI);
      Puts(com, CSI);
      SendDecimal(com, y, buf);
      SentTwice(t0, com, CSI, dy);
      assert tx == Sent(t0, com, CSI + dy);
      PutChar(com, ';');
      SentTwice(t0, com, CSI + dy, [';']);
      assert tx == Sent(t0, com, CSI + dy + [';']);
      SendDecimal(com, x, buf);
      SentTwice(t0, com, CSI + dy + [';'], dx);
      assert tx == Sent(t0, com, CSI + dy + [';'] + dx);
      PutChar(com, 'H');
      SentTwice(t0, com, CSI + dy + [';'] + dx, ['H']);
      assert GotoSequence(x, y) == CSI + dy + [';'] + dx + ['H'];
    }

    /** The `itoa` into `buf` then `UART_puts` of `buf` that `UART_gotoxy` does for each coordinate. */
    method SendDecimal(com: Byte, v: Byte, buf: array<char>)
      requires Valid() && buf.Length == 8
      modifies this`tx, buf
      ensures Valid()
      ensures tx == Sent(old(tx), com, Digits(v, 10))
    {
      ByteDecimalDigitCount(v);
      Itoa(v, buf, 10);
      SentDecimal(buf[..], v);
      Puts(com, buf[..]);
    }

    /**
     * One pass of `UART_gets`'s `for (;;)` loop: read a keystroke; a line end
     * terminates the string and ends the loop, any other keystroke updates
     * the buffer and index as `Feed` does and sends `Feed`'s new echo.
     */
    method GetsPass(com: Byte, str: array<char>, i: nat, ghost e: Editor) returns (next: nat, done: bool)
      requires Valid() && com < PORTS && rx[com] != [] && LineEditing.Valid(e)
      requires str[..] == e.buf && i == e.len
      modifies this`rx, this`tx, str
      ensures Valid()
      ensures rx == old(rx)[com := old(rx)[com][1..]]
      ensures done <==> IsLineEnd(old(rx)[com][0])
      ensures done ==> str[..] == Finish(e) && tx == old(tx)
      ensures !done ==>
        var r := Feed(e, old(rx)[com][0]);
        && str[..] == r.buf && next == r.len
        && tx == Sent(old(tx), com, r.echo[|e.echo|..])
    {
      var c := GetChar(com);
      next := i;
      done := false;
      if c == CR || c == LF {
        str[next] := NUL;
        done := true;
      } else if c == BS || c == DEL {
        if next > 0 {
          next := next - 1;
          str[next] := NUL;
          CStringWithoutNul(RUBOUT);
          Puts(com, RUBOUT);
        } else {
          CStringWithoutNul(RESTORE_CURSOR);
          Puts(com, RESTORE_CURSOR);
        }
      } else if next < 19 {
        str[next] := c;
        next := next + 1;
        PutChar(com, c);
      }
    }

    /**
     * `UART_gets`: read keystrokes up to the first CR or LF, editing the line
     * in `str` and echoing as `LineEditing.Feed` describes; the line end is
     * consumed and replaced by the terminating NUL. An invalid port only
     * empties `str`.
     */
    method Gets(com: Byte, str: array?<char>)
      requires Valid()
      requires com >= PORTS ==> str == null || str.Length > 0
      requires com < PORTS ==> str != null && str.Length > MAX_LINE && !NoLineEnd(rx[com])
      modifies this`rx, this`tx, str
      ensures Valid()
      ensures com >= PORTS ==> rx == old(rx) && tx == old(tx)
      ensures com >= PORTS && str != null ==> str[..] == old(str[..])[0 := NUL]
      ensures com < PORTS ==>
        var n := FirstLineEnd(old(rx)[com]);
        var e := Run(Start(old(str[..])), old(rx)[com][..n]);
        && str[..] == Finish(e)
        && rx == old(rx)[com := old(rx)[com][n + 1..]]
        && tx == Sent(old(tx), com, e.echo)
    {
      if com > 3 {
        if str != null {
          str[0] := NUL;
        }
        return;
      }
      ghost var n := FirstLineEnd(rx[com]);
      ghost var input := rx[com];
      ghost var start := Start(str[..]);
      var i: nat := 0;
      CStringWithoutNul(SAVE_CURSOR);
      CStringWithoutNul(ERASE_TO_END_OF_LINE);
      Puts(com, SAVE_CURSOR);
      Puts(com, ERASE_TO_END_OF_LINE);
      SentTwice(old(tx), com, SAVE_CURSOR, ERASE_TO_END_OF_LINE);
      assert input[..0] == [];
      assert forall j :: 0 <= j < n ==> input[..n][j] == input[j];
      ghost var k := 0;
      ghost var e := start;
      var done := false;
      while !done
        invariant Valid() && 0 <= k <= n
        invariant LineEditing.Valid(e) && e == Run(start, input[..k])
        invariant !done ==> rx == old(rx)[com := input[k..]]
        invariant done ==> rx == old(rx)[com := input[k + 1..]]
        invariant i == e.len
        invariant tx == Sent(old(tx), com, e.echo)
        invariant !done ==> str[..] == e.buf
        invariant done ==> str[..] == Finish(e) && k == n
        decreases n - k + (if done then 0 else 1)
      {
        ConsumeStep(old(rx), com, input, k);
        LineEndAt(input, n, k);
        assert input[k..][0] == input[k];
        var next, last := GetsPass(com, str, i, e);
        if !last {
          RunStep(start, input, n, k);
          var r := Feed(e, input[k]);
          EchoStep(old(tx), com, e, r);
          e := r;
          k := k + 1;
          i := next;
        }
        done := last;
      }
    }
  }

  /** Taking the next byte of the input left at `k` leaves the input at `k + 1`. */
  lemma ConsumeStep(rx: seq<seq<char>>, com: nat, input: seq<char>, k: nat)
    requires com < |rx| && k < |input|
    ensures rx[com := input[k..]][com := input[k..][1..]] == rx[com := input[k + 1..]]
    ensures rx[com := input[k..]][com] == input[k..]
  {
    assert input[k..][1..] == input[k + 1..];
  }

  /** The editor after `k + 1` keystrokes is `Feed` applied to the editor after `k`. */
  lemma RunStep(start: Editor, input: seq<char>, n: nat, k: nat)
    requires LineEditing.Valid(start) && k < n <= |input| && NoLineEnd(input[..n])
    ensures NoLineEnd(input[..k]) && NoLineEnd(input[..k + 1]) && !IsLineEnd(input[k])
    ensures Run(start, input[..k + 1]) == Feed(Run(start, input[..k]), input[k])
  {
    assert input[..n][k] == input[k];
    assert input[..n][..k + 1] == input[..k + 1];
    assert input[..n][..k] == input[..k];
    NoLineEndPrefix(input[..n], k + 1);
    NoLineEndPrefix(input[..n], k);
    assert input[..k + 1][..k] == input[..k];
  }

  /** Up to the first line end, the byte at `k` ends the line exactly when `k` is that first one. */
  lemma LineEndAt(input: seq<char>, n: nat, k: nat)
    requires n < |input| && IsLineEnd(input[n]) && NoLineEnd(input[..n]) && k <= n
    ensures IsLineEnd(input[k]) <==> k == n
  {
    if k < n {
      assert input[..n][k] == input[k];
    }
  }

  lemma NoLineEndPrefix(s: seq<char>, m: nat)
    requires NoLineEnd(s) && m <= |s|
    ensures NoLineEnd(s[..m])
  {
    forall j | 0 <= j < m
      ensures !IsLineEnd(s[..m][j])
    {
      assert s[..m][j] == s[j];
    }
  }

  /** Sending the new part of `Feed`'s echo after the old echo sends the new echo. */
  lemma EchoStep(tx: seq<seq<char>>, com: Byte, e: Editor, r: Editor)
    requires |tx| == PORTS && |e.echo| <= |r.echo| && r.echo[..|e.echo|] == e.echo
    ensures Sent(Sent(tx, com, e.echo), com, r.echo[|e.echo|..]) == Sent(tx, com, r.echo)
  {
    assert r.echo == e.echo + r.echo[|e.echo|..];
    SentTwice(tx, com, e.echo, r.echo[|e.echo|..]);
  }

  /** The characters `Puts` sends from a loop that stopped at `k`. */
  lemma CStringOfPrefix(s: seq<char>, k: nat)
    requires k <= |s| && NUL !in s[..k] && (k < |s| ==> s[k] == NUL)
    ensures CString(s) == s[..k]
  {
    if k < |s| {
      CStringOfTerminated(s, s[..k]);
    } else {
      assert s[..k] == s;
      CStringWithoutNul(s);
    }
  }

  /** A buffer `Itoa` filled with `v` in base 10 sends exactly the decimal digits of `v`. */
  lemma SentDecimal(buf: seq<char>, v: nat)
    requires |Digits(v, 10)| < |buf|
    requires buf[..|Digits(v, 10)|] == Digits(v, 10) && buf[|Digits(v, 10)|] == NUL
    ensures CString(buf) == Digits(v, 10)
  {
    DecimalDigitsAreDigits(v);
    CStringOfTerminated(buf, Digits(v, 10));
  }
}
