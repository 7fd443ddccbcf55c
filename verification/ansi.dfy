/**
 * The terminal control strings the driver sends. Each is a control sequence
 * in the sense of ECMA-48 section 5.4: the Control Sequence Introducer in
 * its 7-bit form ESC '[', parameter bytes (here decimal digits and ';'),
 * and one final byte naming the control function:
 *   CUP  'H'  cursor position, ECMA-48 section 8.3.21
 *   ED   'J'  erase in page, section 8.3.39
 *   EL   'K'  erase in line, section 8.3.41
 *   SGR  'm'  select graphic rendition, section 8.3.117
 *   's' and 'u'  save and restore the cursor, private-use final bytes
 * Decimal parameters are written with the driver's own `itoa`, i.e. `Digits`.
 */
module Ansi {
  import opened Numeric

  /** The C0 controls the driver sends: escape and backspace. */
  const ESC: char := 27 as char
  const BS: char := 8 as char

  /** The Control Sequence Introducer, 7-bit form. */
  const CSI: seq<char> := [ESC, '[']

  function ControlSequence(params: seq<char>, final: char): (s: seq<char>)
    ensures |s| == |params| + 3 && s[..2] == CSI && s[2..|s| - 1] == params && s[|s| - 1] == final
  {
    CSI + params + [final]
  }

  const SAVE_CURSOR: seq<char> := ControlSequence([], 's')
  const RESTORE_CURSOR: seq<char> := ControlSequence([], 'u')
  /** EL with its default parameter: erase from the cursor to the end of the line. */
  const ERASE_TO_END_OF_LINE: seq<char> := ControlSequence([], 'K')
  /** ED with parameter 2 (the whole page), then CUP with default parameters (home). */
  const CLEAR_SCREEN: seq<char> := ControlSequence("2", 'J') + ControlSequence([], 'H')

  /** SGR foreground codes for black, red, green, yellow, blue, magenta, cyan, white. */
  const ANSI_COLORS: seq<nat> := [30, 31, 32, 33, 34, 35, 36, 37]

  /** The colour table entry `UART_setColor` uses: an index past the table means white (7). */
  function ColorIndex(color: Byte): (i: nat)
    ensures i < |ANSI_COLORS|
    ensures color < |ANSI_COLORS| ==> i == color
    ensures color >= |ANSI_COLORS| ==> i == 7
  {
    if color >= |ANSI_COLORS| then 7 else color
  }

  /** SGR selecting the foreground colour of `color`: ESC [ 30+index m. */
  function SetColorSequence(color: Byte): (s: seq<char>)
    ensures |s| >= 4 && s[..2] == CSI && s[|s| - 1] == 'm'
  {
    ControlSequence(Digits(ANSI_COLORS[ColorIndex(color)], 10), 'm')
  }

  /** CUP moving to row `y`, column `x`: ESC [ y ; x H, the row first. */
  function GotoSequence(x: Byte, y: Byte): (s: seq<char>)
    ensures |s| == |Digits(y, 10)| + |Digits(x, 10)| + 4
    ensures s[..2] == CSI && s[|s| - 1] == 'H' && s[2 + |Digits(y, 10)|] == ';'
  {
    ControlSequence(Digits(y, 10) + [';'] + Digits(x, 10), 'H')
  }

  // ---------------------------------------------------------------------------
  // ECMA-48 syntax of a control sequence (section 5.4)
  // ---------------------------------------------------------------------------

  /** Parameter bytes are 03/00 to 03/15. */
  predicate IsParameterByte(c: char) {
    0x30 <= c as int <= 0x3F
  }

  /** Final bytes are 04/00 to 07/14; those from 07/00 up are for private use. */
  predicate IsFinalByte(c: char) {
    0x40 <= c as int <= 0x7E
  }

  predicate IsPrivateFinalByte(c: char) {
    0x70 <= c as int <= 0x7E
  }

  /** CSI, then parameter bytes only, then one final byte. */
  predicate IsControlSequence(s: seq<char>) {
    && |s| >= 3
    && s[..2] == CSI
    && IsFinalByte(s[|s| - 1])
    && forall i :: 2 <= i < |s| - 1 ==> IsParameterByte(s[i])
  }

  /** The parameter string of a control sequence. */
  function Parameters(s: seq<char>): seq<char>
    requires |s| >= 3
  {
    s[2..|s| - 1]
  }

  lemma DecimalParameters(v: nat)
    ensures forall i :: 0 <= i < |Digits(v, 10)| ==> IsParameterByte(Digits(v, 10)[i])
  {
    DecimalDigitsAreDigits(v);
  }

  /**
   * Every string the driver emits is a well-formed control sequence; save
   * and restore cursor use private-use final bytes, the others standard ones.
   */
  lemma EmittedSequencesAreWellFormed(x: Byte, y: Byte, color: Byte)
    ensures IsControlSequence(SAVE_CURSOR) && IsPrivateFinalByte(SAVE_CURSOR[2])
    ensures IsControlSequence(RESTORE_CURSOR) && IsPrivateFinalByte(RESTORE_CURSOR[2])
    ensures IsControlSequence(ERASE_TO_END_OF_LINE) && !IsPrivateFinalByte(ERASE_TO_END_OF_LINE[2])
    ensures IsControlSequence(CLEAR_SCREEN[..4]) && IsControlSequence(CLEAR_SCREEN[4..])
    ensures IsControlSequence(SetColorSequence(color))
    ensures IsControlSequence(GotoSequence(x, y))
  {
    assert CLEAR_SCREEN[..4] == ControlSequence("2", 'J');
    assert CLEAR_SCREEN[4..] == ControlSequence([], 'H');
    DecimalParameters(ANSI_COLORS[ColorIndex(color)]);
    DecimalParameters(x);
    DecimalParameters(y);
    var p := Digits(y, 10) + [';'] + Digits(x, 10);
    assert forall i :: 0 <= i < |p| ==> IsParameterByte(p[i]);
  }

  /**
   * A terminal reading the SGR parameter with the same decimal reading as
   * `atoi` recovers the colour code: 30 + the colour index.
   */
  lemma SetColorParameterReadsBack(color: Byte)
    ensures Accumulate(LeadingDigits(Parameters(SetColorSequence(color)))) == 30 + ColorIndex(color)
  {
    var code := ANSI_COLORS[ColorIndex(color)];
    assert Parameters(SetColorSequence(color)) == Digits(code, 10) + [];
    AtoiOfItoa(code, []);
  }

  /**
   * The CUP parameters read back as the row `y`, a ';', and the column `x`:
   * row first, as ECMA-48 orders them.
   */
  lemma GotoParametersReadBack(x: Byte, y: Byte)
    ensures var p := Parameters(GotoSequence(x, y));
      var k := |Digits(y, 10)|;
      && k < |p| && p[k] == ';'
      && Accumulate(LeadingDigits(p)) == y
      && Accumulate(LeadingDigits(p[k + 1..])) == x
  {
    var dy, dx := Digits(y, 10), Digits(x, 10);
    var p := Parameters(GotoSequence(x, y));
    assert p == dy + ([';'] + dx);
    assert p[|dy| + 1..] == dx + [];
    AtoiOfItoa(y, [';'] + dx);
    AtoiOfItoa(x, []);
  }

  lemma SequenceExamples()
    ensures SetColorSequence(7) == [ESC] + "[37m"
    ensures SetColorSequence(99) == [ESC] + "[37m"
    ensures GotoSequence(5, 10) == [ESC] + "[10;5H"
    ensures CLEAR_SCREEN == [ESC] + "[2J" + [ESC] + "[H"
    ensures SAVE_CURSOR == [ESC] + "[s" && RESTORE_CURSOR == [ESC] + "[u"
    ensures ERASE_TO_END_OF_LINE == [ESC] + "[K"
  {
    DivIsQuot(37, 10);
    DivIsQuot(10, 10);
  }
}
