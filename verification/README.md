# Polled UART driver for a four-port AVR microcontroller — Dafny model

This project models `UART.c`, a small polled UART driver for a four-port AVR
microcontroller (ATmega640/1280/2560 family), and proves properties of it. The
driver's parts are:

- `UART_Ini` configures a port. It computes the baud rate divisor and sets the
  character size, parity mode and stop bits.
- `UART_putchar`, `UART_puts`, `UART_getchar` and `UART_available` move bytes.
  The model reduces them to operations on byte streams.
- `UART_gets` reads a line with echo. It keeps a 19-character limit and handles
  backspace and delete.
- `UART_clrscr`, `UART_setColor` and `UART_gotoxy` emit ECMA-48 control
  sequences.
- `itoa` and `atoi` convert numbers to and from text.

Every entry point ignores a port number above 3.

The project has these modules:

- `Numeric` (`numeric.dfy`) covers `itoa` and `atoi`.
  - `Itoa` is an array method. Like the C code, it fills a 17-character
    scratch buffer least significant digit first, then copies it out reversed.
    It is proved against `Digits`, the recursive most-significant-first digit
    string.
  - `Atoi` walks the text and is proved against `Accumulate`, the 16-bit
    wrapping left fold.
  - Round trips: `ValueOf(Digits(v, b), b) == v` for bases 2..36, and `atoi`
    of `itoa(v, 10)` is `v` for every 16-bit value.
- `Ansi` (`ansi.dfy`) covers the control strings.
  - They are CUP (ECMA-48 section 8.3.21), ED (section 8.3.39), EL
    (section 8.3.41), SGR (section 8.3.117) and the private-use save/restore
    cursor sequences.
  - Each string is shown to be a control sequence as ECMA-48 section 5.4
    defines one.
  - Each decimal parameter reads back as the value it encodes.
- `Terminal` (`terminal.dfy`) is a minimal model of the terminal that receives
  the echo. It gives an independent meaning to the bytes `UART_gets` sends.
- `LineEditing` (`line_editor.dfy`) is the `UART_gets` state machine on
  values.
  - `Feed` is one keystroke and `Run` a sequence of keystrokes. They are tied
    to `EditAll`, the line the user means.
  - `EchoShowsLine` proves that after the echo the terminal shows exactly the
    stored line.
- `Registers` (`registers.dfy`) covers the register block of a port.
  - It has the divisor arithmetic, including the C code's 32-bit and 16-bit
    truncation.
  - `Configured` is the block that `UART_Ini` leaves.
  - Decoders read a block back using the datasheet's character size, parity
    and stop bit tables.
- `Uart` (`uart.dfy`) has `class Uart`, with per-port registers, transmitted
  bytes and pending received bytes. Its methods follow the C functions
  statement by statement. Each method's postcondition ties it to the functions
  above.

## Model

| member | source | states |
|---|---|---|
| Numeric.EffectiveBase | UART.c:191 | a base below 2 is replaced by 10, any other base is kept |
| Numeric.CharDigitOfDigitChar | UART.c:195 | each digit value below 36 is written as a character ('0'..'9', then 'A'..'Z') that decodes back to it, and exactly the values below ten give decimal digits |
| Numeric.DivIsQuot | UART.c:194-196 | the subtraction-based quotient and remainder the model uses are C's unsigned `/` and `%` |
| Numeric.DigitChar | UART.c:195 | remainders below ten become '0'..'9', remainders 10..35 become 'A'..'Z' |
| Numeric.Digits | UART.c:193-197 | the do-while loop always produces at least one digit, and 0 gives "0" in every base |
| Numeric.DigitsLsdFirst | UART.c:193-197 | the scratch buffer's contents hold as many digits as the output (their order is related by `LsdFirstMirrorsDigits`) |
| Numeric.LsdFirstMirrorsDigits | UART.c:193-200 | the scratch order (least significant first) is the output order reversed |
| Numeric.DigitsRoundTrip | UART.c:187-202 | reading the digits back positionally in base b (2..36) gives the value |
| Numeric.DigitCountBound | UART.c:193-197 | a value below b^k has at most k digits |
| Numeric.Word16DigitCount | UART.c:189-197 | a 16-bit value has 1..16 digits in any base 2..255, so the 17-character scratch never truncates |
| Numeric.ByteDecimalDigitCount | UART.c:166-167 | an 8-bit value has at most 3 decimal digits, so the 8-character buffers of the ANSI helpers suffice |
| Numeric.DigitsWellFormed | UART.c:195 | every character is a digit of the base, and the first is '0' exactly for the value 0 |
| Numeric.DecimalDigitsAreDigits | UART.c:195 | decimal output consists of '0'..'9' and contains no NUL |
| Numeric.ItoaExamples | UART.c:187-202 | 0 gives "0" in bases 2, 10 and 16; 255 in base 16 gives "FF"; 5 in base 2 gives "101" |
| Numeric.FillScratch | UART.c:189-197 | the first loop leaves the digits least significant first in the 17-character scratch, and stops because the value is exhausted, never because the scratch is full |
| Numeric.CopyReversed | UART.c:199-200 | the second loop copies the scratch digits out last-first and leaves the rest of the caller's buffer unchanged |
| Numeric.Itoa | UART.c:187-202 | the buffer receives the most-significant-first digits and a NUL, and nothing after the NUL changes |
| Numeric.LeadingDigits | UART.c:207-212 | the text `atoi` consumes is the longest prefix of decimal digits; it stops at the first non-digit, NUL and '.' included |
| Numeric.Accumulate | UART.c:206-213 | the value `atoi` builds from a digit string, `v * 10 + digit` truncated to 16 bits at each step; its meaning is stated by `AccumulateWraps` |
| Numeric.AccumulateWraps | UART.c:209 | truncating to 16 bits at every step equals the full decimal value modulo 65536 |
| Numeric.AtoiOfItoa | UART.c:187-215 | `atoi` reads back every 16-bit value written by `itoa` in base 10, whatever non-digit follows |
| Numeric.LeadingDigitsOfDigits | UART.c:207-212 | `atoi` stops exactly after the digits `itoa` wrote |
| Numeric.AtoiExamples | UART.c:204-215 | "123.45" gives 123; "abc" and "" give 0 |
| Numeric.Atoi | UART.c:204-215 | the result is the 16-bit accumulation of the leading digits, i.e. their decimal value modulo 65536 |
| Ansi.ColorIndex | UART.c:159-164 | colours 0..7 index the table directly, any colour from 8 up selects white (7) |
| Ansi.EmittedSequencesAreWellFormed | UART.c:155-184 | every emitted string is CSI, parameter bytes and one final byte; save/restore cursor use private-use final bytes, EL does not |
| Ansi.SetColorSequence | UART.c:164-170 | the bytes `UART_setColor` sends start with CSI and end with the SGR final byte 'm', with at least one parameter digit between |
| Ansi.GotoSequence | UART.c:179-183 | the bytes `UART_gotoxy` sends start with CSI, end with the CUP final byte 'H', and have the ';' right after the row's digits |
| Ansi.SetColorParameterReadsBack | UART.c:161-171 | the SGR parameter reads back as 30 + the colour index |
| Ansi.GotoParametersReadBack | UART.c:174-184 | the CUP parameters read back as row y, ';', column x (row first) |
| Ansi.SequenceExamples | UART.c:155-184 | colours 7 and 99 both give ESC[37m; (5,10) gives ESC[10;5H; clear screen is ESC[2J ESC[H |
| LineEditing.Start | UART.c:126-129 | before the first keystroke the caller's buffer is unchanged, the stored line is empty, and save cursor and erase-to-end-of-line have been sent |
| LineEditing.Feed | UART.c:138-150 | one keystroke keeps the index at most 19, changes the stored line as `Edit` says, never touches bytes from index 19 on, and only appends to the echo |
| LineEditing.Run | UART.c:131-151 | a keystroke sequence without line end leaves the buffer holding `EditAll` of the keys, within the same bounds |
| LineEditing.Finish | UART.c:134-136 | the line end writes NUL at the index, keeps the stored line and leaves every byte from index 20 on untouched |
| LineEditing.FirstLineEnd | UART.c:131-136 | the keystrokes consumed are those before the first CR or LF |
| LineEditing.GetsStoresLine | UART.c:122-152 | the stored string is the edited line (at most 19 characters), NUL-terminated, and the caller's buffer beyond 20 bytes is untouched |
| LineEditing.FullLineDropsKeystroke | UART.c:147-150 | at 19 characters a non-erase keystroke is dropped with no echo |
| LineEditing.EraseKeystroke | UART.c:138-146 | an erase at length > 0 shortens by one, clears the byte and echoes "\b \b"; at length 0 it echoes ESC[u only |
| LineEditing.StoreKeystroke | UART.c:147-149 | below 19 characters any other keystroke is stored at the index, the index advances, and exactly that character is echoed |
| LineEditing.EditAllBounded | UART.c:147-150 | the line never exceeds 19 characters and holds only typed non-erase characters |
| LineEditing.EditAllTruncates | UART.c:147-150 | without erases, the line is the keystrokes cut to 19 characters |
| LineEditing.TypeThenErase | UART.c:138-150 | typing a character then erasing it restores the line when there was room |
| LineEditing.EditExamples | UART.c:131-151 | "ab\bc" gives "ac"; an erase on an empty line is ignored; more erases than characters give "" |
| LineEditing.EchoStart | UART.c:128-129 | save cursor and erase-to-end-of-line leave the terminal showing an empty line at the saved position |
| LineEditing.EchoPrintable | UART.c:147-149 | echoing a stored character extends the displayed line by it |
| LineEditing.EchoRubout | UART.c:139-142 | "\b \b" removes the last displayed character and blanks its cell |
| LineEditing.EchoRestore | UART.c:143-144 | ESC[u on an empty line keeps the cursor at the line start |
| LineEditing.EchoFeed | UART.c:138-150 | each keystroke's echo keeps the terminal showing exactly the stored line |
| LineEditing.EchoShowsLine | UART.c:128-150 | for printable and erase keystrokes, after all of the echo the terminal shows the earlier text followed by exactly the stored line, with erased cells blank and the cursor after the line |
| Registers.Divisor | UART.c:56-57 | the 32-bit divisor formula with its 16-bit cast; its meaning is stated by `DivisorRoundsToNearest`, `DivisorFitsRegister` and `HighBaudWraps` |
| Registers.Configured | UART.c:59-85 | the block `UART_Ini` leaves: receiver and transmitter enabled, U2X clear, the high baud byte's top nibble clear, and the bits the driver does not address kept; the frame format is read back by `ConfiguredFrame` |
| Registers.FrameSize | UART.c:67 | sizes 5..9 are kept, any other size means 8 |
| Registers.ConfiguredFrame | UART.c:59-85 | read back with the datasheet tables: character size = normalised size, parity 1 = odd and 2 = even (else disabled), stop 2 = two bits (else one), receiver and transmitter enabled, U2X clear, other bits unchanged |
| Registers.ConfiguredBaud | UART.c:61-62 | the 12-bit baud register holds the divisor's low 12 bits and the high byte's top nibble is clear |
| Registers.ConfiguredForgetsOldFields | UART.c:59-85 | every field the driver writes depends on the arguments only, not on the old register contents |
| Registers.DivisorRoundsToNearest | UART.c:56-57 | from 16 to 2000000 baud, divisor + 1 is F_CPU/(16·baud) rounded to nearest |
| Registers.DivisorFitsRegister | UART.c:56-62 | from 245 to 2000000 baud the divisor fits the 12-bit register, so the split loses nothing |
| Registers.HighBaudWraps | UART.c:56-57 | above 2000000 baud the unsigned subtraction wraps and the divisor is 0xFFFF |
| Registers.DivisorExamples | UART.c:56-57 | 9600 baud gives 103, 115200 gives 8, 2400 gives 416 |
| Uart.CString | UART.c:117 | the characters `UART_puts` sends are the prefix before the first NUL (or all of them) |
| Uart.Sent | UART.c:106-113 | the output grows on the given port only, and not at all for a port above 3 |
| Uart.Uart.Ini | UART.c:50-86 | a valid port's block becomes `Configured(old block, Divisor(baud), ...)`; other ports, and every port when com > 3, are unchanged |
| Uart.Uart.Available | UART.c:88-94 | true exactly when the port is valid and has a received byte pending |
| Uart.Uart.GetChar | UART.c:96-104 | returns and consumes the next received byte; a port above 3 returns NUL without reading |
| Uart.Uart.PutChar | UART.c:106-114 | appends the byte to the port's output; nothing for a port above 3 |
| Uart.Uart.Puts | UART.c:116-120 | sends exactly the string's characters before its NUL |
| Uart.Uart.ClrScr | UART.c:155-157 | sends ED 2 then CUP home |
| Uart.Uart.SetColor | UART.c:161-171 | sends exactly `SetColorSequence(color)`, nothing for a port above 3 |
| Uart.Uart.GotoXY | UART.c:174-184 | sends exactly `GotoSequence(x, y)`, nothing for a port above 3 |
| Uart.Uart.SendDecimal | UART.c:180-182 | `itoa` into the buffer then `UART_puts` sends the decimal digits of the coordinate |
| Uart.Uart.GetsPass | UART.c:131-151 | one loop pass consumes one byte; a line end terminates the string with no echo; any other byte updates buffer, index and echo as `Feed` |
| Uart.Uart.Gets | UART.c:122-152 | consumes input up to and including the first line end; the buffer ends as `Finish(Run(Start(buffer), keys))` and the port's output gains that run's echo; for a port above 3 only `str[0]` becomes NUL |

## Left out

- Busy-wait polling on the receive-complete and data-register-empty flags
  (`UART_getchar`, `UART_putchar`) is not modelled. The transmitter is taken to
  be ready at once. `GetChar` requires a pending byte and `Gets` a pending CR
  or LF; the C code would wait forever without them.
- Register addresses (`uartsList`) and bit positions come from the AVR
  headers, which are not part of this model. The register block is a set of
  named fields plus `others`, the bits the driver does not address.
- Registers.ConfiguredFrame: "others unchanged" treats every bit as plain
  storage. The read-modify-write of UCSRnA (UART.c:59) writes back a pending
  transmit-complete flag (TXCn) as one, which clears it, because the hardware
  clears that flag when a one is written. Status flags with that behaviour
  are not modelled.
- Uart.Uart.Available: the C function returns the raw masked status bit. The
  model returns a boolean.
- Uart.Uart.Ini: `volatile` read-modify-write timing is not modelled. The
  method updates a copy of the port's block in the driver's order and stores
  it once, so intermediate register states are not observable.
- Uart.Uart.Ini requires `baud > 0` and `16·baud < 2^32` on a valid port. The
  C expression divides by zero or overflows otherwise.
- Numeric.Itoa: digit characters for remainders of 201 and above are not
  wrapped to 8 bits as C's `char` would wrap `'A' + r - 10`. The round-trip
  and well-formedness lemmas are stated for bases 2..36 only. The code
  promises nothing for larger bases.
- Strings are `seq<char>`. The end of a sequence acts like a NUL, and
  pointer validity and buffer overruns are not modelled. `Gets` requires a
  buffer of at least 20 characters on a valid port, because the C code writes
  up to index 19 without a check.
- Numeric.Quot / Numeric.Rem: C's `/` and `%` on unsigned values are written
  as repeated subtraction. `DivIsQuot` proves them equal to Dafny's `/` and
  `%`.
- The parity codes are named after what the bits select in the datasheet:
  parity 1 sets UPM1:0 = 11, which selects odd parity; parity 2 sets
  UPM1:0 = 10, which selects even parity; any other value leaves 00,
  parity disabled.
- `UART.h` is not part of this model. It holds declarations and colour
  constants only.
- Physical serial framing and baud-rate error tolerance are not modelled.
- The `Terminal` module interprets only the parameterless save cursor,
  restore cursor and erase-in-line sequences, and backspace. It treats the
  screen as a single line and exists only to give the echo a meaning.
